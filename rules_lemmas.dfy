/**
 * What the board operations keep and what the move generation means: MoveTo keeps the board
 * invariant, castling rights are only ever lost, and the check, checkmate, safe-move, castling
 * and pawn computations are characterised square by square.
 */
module RulesProperties {
  import opened Wrappers
  import opened Constants
  import opened Movement
  import opened Bitboards
  import opened Rays
  import opened Pieces
  import opened Rules

  // ---------------------------------------------------------------------------------------
  // The board invariant.

  /** Removing a listed piece removes its square from its side's squares and nothing else. */
  lemma {:induction false} RemoveKeepsSquares(ps: seq<Piece>, k: nat, side: Side)
    requires k < |ps| && Unique(ps)
    ensures Unique(RemoveAt(ps, k))
    ensures SideSquares(RemoveAt(ps, k), side) ==
      SideSquares(ps, side) - (if ps[k].side == side then {ps[k].pos} else {})
  {
    var r := RemoveAt(ps, k);
    var gone := if ps[k].side == side then {ps[k].pos} else {};
    forall q | q in SideSquares(r, side) ensures q in SideSquares(ps, side) - gone {
      var j :| 0 <= j < |r| && r[j].side == side && r[j].pos == q;
      var j' := if j < k then j else j + 1;
      assert ps[j'] == r[j];
    }
    forall q | q in SideSquares(ps, side) - gone ensures q in SideSquares(r, side) {
      var j :| 0 <= j < |ps| && ps[j].side == side && ps[j].pos == q;
      var j' := if j < k then j else j - 1;
      assert r[j'] == ps[j];
    }
  }

  /** Replacing a listed piece by one on a square no other piece holds. */
  lemma {:induction false} UpdateKeepsSquares(ps: seq<Piece>, k: nat, x: Piece, side: Side)
    requires k < |ps| && Unique(ps)
    requires forall j :: 0 <= j < |ps| && j != k ==> ps[j].pos != x.pos
    ensures Unique(ps[k := x])
    ensures SideSquares(ps[k := x], side) ==
      SideSquares(ps, side) - (if ps[k].side == side then {ps[k].pos} else {}) + (if x.side == side then {x.pos} else {})
  {
    var r := ps[k := x];
    var gone := if ps[k].side == side then {ps[k].pos} else {};
    var added := if x.side == side then {x.pos} else {};
    forall q | q in SideSquares(r, side) ensures q in SideSquares(ps, side) - gone + added {
      var j :| 0 <= j < |r| && r[j].side == side && r[j].pos == q;
    }
    forall q | q in SideSquares(ps, side) - gone + added ensures q in SideSquares(r, side) {
      if q in added {
        assert r[k] == x;
      } else {
        var j :| 0 <= j < |ps| && ps[j].side == side && ps[j].pos == q;
        assert r[j] == ps[j];
      }
    }
  }

  /** KillPieceAtPosition keeps the board invariant. */
  lemma {:induction false} KillConsistent(b: BoardState, p: Position)
    requires Consistent(b)
    ensures Consistent(Kill(b, p))
  {
    match FirstAt(b.pieces, p)
    case None =>
    case Some(k) =>
      RemoveKeepsSquares(b.pieces, k, Black);
      RemoveKeepsSquares(b.pieces, k, White);
  }

  /** Writing back a piece with a new kind on the same square keeps the board invariant. */
  lemma {:induction false} PutConsistent(b: BoardState, idx: Option<nat>, pc: Piece, x: Piece)
    requires Consistent(b) && (idx.Some? ==> idx.value < |b.pieces| && b.pieces[idx.value] == pc)
    requires x.pos == pc.pos && x.side == pc.side
    ensures Consistent(Put(b, idx, x))
  {
    if idx.Some? {
      UpdateKeepsSquares(b.pieces, idx.value, x, Black);
      UpdateKeepsSquares(b.pieces, idx.value, x, White);
    }
  }

  /**
   * MoveTo keeps the board invariant for every target square: the mover's bits follow it, a
   * piece it lands on is removed with its bit, and PostMoveActions only kills and moves pieces
   * the same way.
   */
  lemma {:induction false} MoveToConsistent(b: BoardState, i: nat, t: Position)
    requires Consistent(b) && i < |b.pieces| && t.OnBoard()
    ensures MoveTo(b, i, t).Ok? ==> Consistent(MoveTo(b, i, t).value)
    decreases MoveRank(b.pieces[i].kind), 1
  {
    var mover := b.pieces[i];
    var b1 := FlipBit(FlipBit(b, mover.side, mover.pos), mover.side, t);
    var killed := FirstAt(b1.pieces, t);
    var b2 := Kill(b1, t);
    var idx := Survivor(i, killed);
    var moved := mover.(pos := t);
    var b3 := Put(b2, idx, moved);
    MoveStepConsistent(b, i, t);
    PostMoveConsistent(b3, moved, idx);
  }

  /** The part of MoveTo before PostMoveActions keeps the board invariant. */
  lemma MoveStepConsistent(b: BoardState, i: nat, t: Position)
    requires Consistent(b) && i < |b.pieces| && t.OnBoard()
    ensures
      var mover := b.pieces[i];
      var b1 := FlipBit(FlipBit(b, mover.side, mover.pos), mover.side, t);
      var idx := Survivor(i, FirstAt(b1.pieces, t));
      var b2 := Kill(b1, t);
      (idx.Some? ==> idx.value < |b2.pieces|) &&
      Consistent(Put(b2, idx, mover.(pos := t)))
  {
    if t == b.pieces[i].pos {
      MoveInPlaceConsistent(b, i, t);
    } else if FirstAt(b.pieces, t).None? {
      MoveToEmptyConsistent(b, i, t);
    } else {
      MoveCaptureConsistent(b, i, t);
    }
  }

  /** The step of MoveTo onto the mover's own square: it kills itself. */
  lemma {:induction false} MoveInPlaceConsistent(b: BoardState, i: nat, t: Position)
    requires Consistent(b) && i < |b.pieces| && t.OnBoard()
    requires t == b.pieces[i].pos
    ensures
      var mover := b.pieces[i];
      var b1 := FlipBit(FlipBit(b, mover.side, mover.pos), mover.side, t);
      var idx := Survivor(i, FirstAt(b1.pieces, t));
      var b2 := Kill(b1, t);
      (idx.Some? ==> idx.value < |b2.pieces|) &&
      Consistent(Put(b2, idx, mover.(pos := t)))
  {
    var mover := b.pieces[i];
    var c, S := mover.pos, mover.side;
    var b1 := FlipBit(FlipBit(b, S, c), S, t);
    var killed := FirstAt(b1.pieces, t);
    var b2 := Kill(b1, t);
    var idx := Survivor(i, killed);
    var moved := mover.(pos := t);
    var b3 := Put(b2, idx, moved);
    assert b1.pieces == b.pieces;
    assert c in SideSquares(b.pieces, S);
    assert killed == Some(i);
    RemoveKeepsSquares(b.pieces, i, Black);
    RemoveKeepsSquares(b.pieces, i, White);
    assert b3 == b2;
  }

  /** The step of MoveTo onto an empty square. */
  lemma {:induction false} MoveToEmptyConsistent(b: BoardState, i: nat, t: Position)
    requires Consistent(b) && i < |b.pieces| && t.OnBoard()
    requires t != b.pieces[i].pos && FirstAt(b.pieces, t).None?
    ensures
      var mover := b.pieces[i];
      var b1 := FlipBit(FlipBit(b, mover.side, mover.pos), mover.side, t);
      var idx := Survivor(i, FirstAt(b1.pieces, t));
      var b2 := Kill(b1, t);
      (idx.Some? ==> idx.value < |b2.pieces|) &&
      Consistent(Put(b2, idx, mover.(pos := t)))
  {
    var mover := b.pieces[i];
    var c, S := mover.pos, mover.side;
    var b1 := FlipBit(FlipBit(b, S, c), S, t);
    var killed := FirstAt(b1.pieces, t);
    var b2 := Kill(b1, t);
    var idx := Survivor(i, killed);
    var moved := mover.(pos := t);
    var b3 := Put(b2, idx, moved);
    assert b1.pieces == b.pieces;
    assert c in SideSquares(b.pieces, S);
    assert forall k :: 0 <= k < |b.pieces| ==> b.pieces[k].pos != t;
    assert t !in SideSquares(b.pieces, S);
    UpdateKeepsSquares(b.pieces, i, moved, Black);
    UpdateKeepsSquares(b.pieces, i, moved, White);
  }

  /** The step of MoveTo onto a square another piece holds: that piece is captured. */
  lemma {:induction false} MoveCaptureConsistent(b: BoardState, i: nat, t: Position)
    requires Consistent(b) && i < |b.pieces| && t.OnBoard()
    requires t != b.pieces[i].pos && FirstAt(b.pieces, t).Some?
    ensures
      var mover := b.pieces[i];
      var b1 := FlipBit(FlipBit(b, mover.side, mover.pos), mover.side, t);
      var idx := Survivor(i, FirstAt(b1.pieces, t));
      var b2 := Kill(b1, t);
      (idx.Some? ==> idx.value < |b2.pieces|) &&
      Consistent(Put(b2, idx, mover.(pos := t)))
  {
    var mover := b.pieces[i];
    var c, S := mover.pos, mover.side;
    var b1 := FlipBit(FlipBit(b, S, c), S, t);
    var killed := FirstAt(b1.pieces, t);
    var b2 := Kill(b1, t);
    var idx := Survivor(i, killed);
    var moved := mover.(pos := t);
    var b3 := Put(b2, idx, moved);
    assert b1.pieces == b.pieces;
    assert c in SideSquares(b.pieces, S);
    var k := killed.value;
    assert k != i;
    assert t in SideSquares(b.pieces, b.pieces[k].side);
    CaptureKeepsSquares(b.pieces, i, k, moved, Black);
    CaptureKeepsSquares(b.pieces, i, k, moved, White);
  }

  /**
   * Removing the piece at index k, which stands where piece i moves to, and writing the moved
   * piece back at i's new index keeps the squares distinct and moves i's square to the target.
   */
  lemma CaptureKeepsSquares(ps: seq<Piece>, i: nat, k: nat, moved: Piece, side: Side)
    requires Unique(ps) && i < |ps| && k < |ps| && i != k
    requires ps[k].pos == moved.pos && moved.side == ps[i].side
    ensures
      var j := if k < i then i - 1 else i;
      var r := RemoveAt(ps, k);
      j < |r| && r[j] == ps[i] && Unique(r[j := moved]) &&
      SideSquares(r[j := moved], side) ==
        SideSquares(ps, side) - (if ps[k].side == side then {moved.pos} else {})
          - (if ps[i].side == side then {ps[i].pos} else {}) + (if moved.side == side then {moved.pos} else {})
  {
    var j := if k < i then i - 1 else i;
    var r := RemoveAt(ps, k);
    RemoveKeepsSquares(ps, k, side);
    assert r[j] == ps[i];
    forall m | 0 <= m < |r| && m != j ensures r[m].pos != moved.pos {
      var m' := if m < k then m else m + 1;
      assert r[m] == ps[m'];
    }
    UpdateKeepsSquares(r, j, moved, side);
  }

  /** PostMoveActions keeps the board invariant. */
  lemma {:induction false} PostMoveConsistent(b: BoardState, pc: Piece, idx: Option<nat>)
    requires Consistent(b) && pc.pos.OnBoard()
    requires idx.Some? ==> idx.value < |b.pieces| && b.pieces[idx.value] == pc
    ensures PostMoveActions(b, pc, idx).Ok? ==> Consistent(PostMoveActions(b, pc, idx).value)
    decreases MoveRank(pc.kind), 0
  {
    match pc.kind
    case Pawn(flag, init) =>
      var moved := pc.(kind := Pawn(flag || pc.pos == DoubleStep(pc.side, init), init));
      PutConsistent(b, idx, pc, moved);
      var b1 := Put(b, idx, moved);
      var passed := PieceAt(b1, Behind(pc.side, pc.pos));
      if passed.Some? {
        KillConsistent(b1, passed.value.pos);
      }
    case Rook(_) =>
      PutConsistent(b, idx, pc, pc.(kind := Rook(false)));
    case King(canCastle) =>
      if canCastle {
        PutConsistent(b, idx, pc, pc.(kind := King(false)));
        var b1 := Put(b, idx, pc.(kind := King(false)));
        if pc.pos.column == 2 {
          CastleRookConsistent(b1, Position(1, pc.pos.row), 3);
        } else if pc.pos.column == 6 {
          CastleRookConsistent(b1, Position(8, pc.pos.row), 5);
        }
      }
    case _ =>
  }

  lemma {:induction false} CastleRookConsistent(b: BoardState, corner: Position, column: int)
    requires Consistent(b) && corner.OnBoard() && Min <= column <= Max
    ensures CastleRook(b, corner, column).Ok? ==> Consistent(CastleRook(b, corner, column).value)
    decreases 0, 2
  {
    match LastAt(b.pieces, corner)
    case None =>
    case Some(k) =>
      if b.pieces[k].kind.Rook? {
        MoveToConsistent(b, k, Position(column, b.pieces[k].pos.row));
      }
  }

  // ---------------------------------------------------------------------------------------
  // What a move does to the list of pieces.

  /** A move whose PostMoveActions only clear a castling right: not a pawn's, not a castling. */
  predicate PlainMove(pc: Piece, t: Position) {
    !pc.kind.Pawn? && !(pc.kind == King(true) && (t.column == 2 || t.column == 6))
  }

  /** The piece pc after a plain move to t: on t, and a Rook or King without its castling right. */
  function Landed(pc: Piece, t: Position): Piece {
    pc.(pos := t, kind := match pc.kind
                          case Rook(_) => Rook(false)
                          case King(_) => King(false)
                          case k => k)
  }

  /** Replacing index i and then removing index k is removing k and replacing i's new index. */
  lemma RemoveUpdate(ps: seq<Piece>, i: nat, k: nat, x: Piece)
    requires i < |ps| && k < |ps| && i != k
    ensures
      var j := if k < i then i - 1 else i;
      j < |RemoveAt(ps, k)| && RemoveAt(ps, k)[j := x] == RemoveAt(ps[i := x], k)
  {
    var j := if k < i then i - 1 else i;
    var l, r := RemoveAt(ps, k)[j := x], RemoveAt(ps[i := x], k);
    forall m | 0 <= m < |l| ensures l[m] == r[m] {
      if m < k {
        assert r[m] == ps[i := x][m];
      } else {
        assert r[m] == ps[i := x][m + 1];
      }
    }
  }

  /**
   * The part of MoveTo before PostMoveActions, with x written back for the mover: onto its own
   * square the mover is removed; onto an empty square it is replaced by x; onto the square of
   * another piece k, it is replaced by x and k is removed.
   */
  lemma {:induction false} MoveStepPieces(b: BoardState, i: nat, t: Position, x: Piece)
    requires Consistent(b) && i < |b.pieces| && t.OnBoard()
    ensures
      var mover := b.pieces[i];
      var b1 := FlipBit(FlipBit(b, mover.side, mover.pos), mover.side, t);
      var k := FirstAt(b.pieces, t);
      var idx := Survivor(i, FirstAt(b1.pieces, t));
      var b2 := Kill(b1, t);
      (idx.Some? ==> idx.value < |b2.pieces|) &&
      (t == mover.pos ==> Put(b2, idx, x).pieces == RemoveAt(b.pieces, i)) &&
      (k.None? ==> Put(b2, idx, x).pieces == b.pieces[i := x]) &&
      (k.Some? && k.value != i ==> Put(b2, idx, x).pieces == RemoveAt(b.pieces[i := x], k.value))
  {
    var mover := b.pieces[i];
    var b1 := FlipBit(FlipBit(b, mover.side, mover.pos), mover.side, t);
    assert b1.pieces == b.pieces;
    var k := FirstAt(b.pieces, t);
    if t == mover.pos {
      assert k == Some(i);
    } else if k.Some? {
      RemoveUpdate(b.pieces, i, k.value, x);
    }
  }

  /** A plain move is MoveTo's first part with the landed piece written back, and succeeds. */
  lemma PlainMoveTo(b: BoardState, i: nat, t: Position)
    requires Consistent(b) && i < |b.pieces| && t.OnBoard() && PlainMove(b.pieces[i], t)
    ensures
      var mover := b.pieces[i];
      var b1 := FlipBit(FlipBit(b, mover.side, mover.pos), mover.side, t);
      var idx := Survivor(i, FirstAt(b1.pieces, t));
      var b2 := Kill(b1, t);
      (idx.Some? ==> idx.value < |b2.pieces|) &&
      MoveTo(b, i, t) == Ok(Put(b2, idx, Landed(mover, t)))
  {
    var mover := b.pieces[i];
    var b1 := FlipBit(FlipBit(b, mover.side, mover.pos), mover.side, t);
    var idx := Survivor(i, FirstAt(b1.pieces, t));
    var b2 := Kill(b1, t);
    MoveStepConsistent(b, i, t);
    var moved := mover.(pos := t);
    var b3 := Put(b2, idx, moved);
    assert MoveTo(b, i, t) == PostMoveActions(b3, moved, idx);
    assert Put(b3, idx, Landed(mover, t)) == Put(b2, idx, Landed(mover, t));
  }

  /**
   * MoveTo of a Knight, Bishop, Queen, Rook or non-castling King: it succeeds and keeps the
   * board invariant; onto the mover's own square the mover is removed; onto an empty square the
   * mover stands on t (a Rook or King without its castling right) and every other piece stays
   * where it was in the list; onto the square of another piece that piece is removed as well,
   * the list keeping its order and dropping by one.
   */
  lemma MoveToMeaning(b: BoardState, i: nat, t: Position)
    requires Consistent(b) && i < |b.pieces| && t.OnBoard() && PlainMove(b.pieces[i], t)
    ensures MoveTo(b, i, t).Ok? && Consistent(MoveTo(b, i, t).value)
    ensures t == b.pieces[i].pos ==> MoveTo(b, i, t).value.pieces == RemoveAt(b.pieces, i)
    ensures FirstAt(b.pieces, t).None? ==>
      MoveTo(b, i, t).value.pieces == b.pieces[i := Landed(b.pieces[i], t)]
    ensures FirstAt(b.pieces, t).Some? && FirstAt(b.pieces, t).value != i ==>
      MoveTo(b, i, t).value.pieces == RemoveAt(b.pieces[i := Landed(b.pieces[i], t)], FirstAt(b.pieces, t).value) &&
      |MoveTo(b, i, t).value.pieces| == |b.pieces| - 1
  {
    PlainMoveTo(b, i, t);
    MoveStepPieces(b, i, t, Landed(b.pieces[i], t));
    MoveToConsistent(b, i, t);
  }

  /**
   * The pieces after MoveTo's first part onto another square, by membership: x, and the pieces
   * that stood neither on the mover's square nor on t.
   */
  lemma MoveStepMembers(b: BoardState, i: nat, t: Position, x: Piece)
    requires Consistent(b) && i < |b.pieces| && t.OnBoard() && t != b.pieces[i].pos && x.pos == t
    ensures
      var mover := b.pieces[i];
      var b1 := FlipBit(FlipBit(b, mover.side, mover.pos), mover.side, t);
      var idx := Survivor(i, FirstAt(b1.pieces, t));
      var b2 := Kill(b1, t);
      (idx.Some? ==> idx.value < |b2.pieces|) &&
      forall y :: y in Put(b2, idx, x).pieces <==>
        (y == x || (y in b.pieces && y.pos != mover.pos && y.pos != t))
  {
    MoveStepPieces(b, i, t, x);
    var k := FirstAt(b.pieces, t);
    if k.None? {
      UpdateMembers(b.pieces, i, x);
    } else {
      RemoveUpdateMembers(b.pieces, i, k.value, x);
    }
  }

  /** Replacing piece i by x on a square no listed piece holds, by membership. */
  lemma {:induction false} UpdateMembers(ps: seq<Piece>, i: nat, x: Piece)
    requires Unique(ps) && i < |ps| && forall m :: 0 <= m < |ps| ==> ps[m].pos != x.pos
    ensures forall y :: y in ps[i := x] <==> (y == x || (y in ps && y.pos != ps[i].pos && y.pos != x.pos))
  {
    var r := ps[i := x];
    forall y | y in r ensures y == x || (y in ps && y.pos != ps[i].pos && y.pos != x.pos) {
      var m :| 0 <= m < |r| && r[m] == y;
      if m != i {
        assert y == ps[m];
      }
    }
    forall y | y in ps && y.pos != ps[i].pos && y.pos != x.pos ensures y in r {
      var m :| 0 <= m < |ps| && ps[m] == y;
      assert r[m] == y;
    }
    assert r[i] == x;
  }

  /** Replacing piece i by x on the square of piece k and removing k, by membership. */
  lemma {:induction false} RemoveUpdateMembers(ps: seq<Piece>, i: nat, k: nat, x: Piece)
    requires Unique(ps) && i < |ps| && k < |ps| && i != k && ps[k].pos == x.pos
    ensures forall y :: y in RemoveAt(ps[i := x], k) <==>
      (y == x || (y in ps && y.pos != ps[i].pos && y.pos != x.pos))
  {
    var u := ps[i := x];
    var r := RemoveAt(u, k);
    forall y | y in r ensures y == x || (y in ps && y.pos != ps[i].pos && y.pos != x.pos) {
      var m :| 0 <= m < |r| && r[m] == y;
      var m' := if m < k then m else m + 1;
      assert y == u[m'];
      if m' != i {
        assert y == ps[m'];
      }
    }
    forall y | y in ps && y.pos != ps[i].pos && y.pos != x.pos ensures y in r {
      var m :| 0 <= m < |ps| && ps[m] == y;
      assert m != k && m != i;
      var m' := if m < k then m else m - 1;
      assert r[m'] == u[m];
    }
    var j := if i < k then i else i - 1;
    assert r[j] == u[i];
  }

  /** A listed piece on a board whose pieces have distinct squares is the last one on its square. */
  lemma LastAtMember(ps: seq<Piece>, x: Piece)
    requires Unique(ps) && x in ps
    ensures LastAt(ps, x.pos).Some? && ps[LastAt(ps, x.pos).value] == x
  {
    var m :| 0 <= m < |ps| && ps[m] == x;
  }

  /** When GetPieceAtPosition finds nothing on p, no listed piece stands there. */
  lemma NoneOnSquare(ps: seq<Piece>, p: Position)
    requires LastAt(ps, p).None?
    ensures forall y :: y in ps ==> y.pos != p
  {
    forall y | y in ps ensures y.pos != p {
      var m :| 0 <= m < |ps| && ps[m] == y;
    }
  }

  /** With no listed piece on p, GetPieceAtPosition finds nothing there. */
  lemma LastAtNone(ps: seq<Piece>, p: Position)
    requires forall y :: y in ps ==> y.pos != p
    ensures LastAt(ps, p).None?
  {
  }

  /**
   * The rook relocation of a castling King: no piece on the corner is a NullReference, a piece
   * there that is not a Rook an InvalidCast; a Rook there moves to the column, losing its
   * castling right and capturing any piece there, and every other piece stays.
   */
  lemma {:induction false} CastleRookMeaning(b: BoardState, corner: Position, column: int)
    requires Consistent(b) && corner.OnBoard() && Min <= column <= Max && column != corner.column
    ensures LastAt(b.pieces, corner).None? ==> CastleRook(b, corner, column) == Err(NullReference)
    ensures LastAt(b.pieces, corner).Some? && !b.pieces[LastAt(b.pieces, corner).value].kind.Rook? ==>
      CastleRook(b, corner, column) == Err(InvalidCast)
    ensures LastAt(b.pieces, corner).Some? && b.pieces[LastAt(b.pieces, corner).value].kind.Rook? ==>
      var rook := b.pieces[LastAt(b.pieces, corner).value];
      var q := Position(column, corner.row);
      CastleRook(b, corner, column).Ok? && Consistent(CastleRook(b, corner, column).value) &&
      forall y :: y in CastleRook(b, corner, column).value.pieces <==>
        (y == rook.(pos := q, kind := Rook(false)) || (y in b.pieces && y.pos != corner && y.pos != q))
  {
    match LastAt(b.pieces, corner)
    case None =>
    case Some(k) =>
      if b.pieces[k].kind.Rook? {
        var q := Position(column, corner.row);
        PlainMoveTo(b, k, q);
        MoveStepMembers(b, k, q, Landed(b.pieces[k], q));
        MoveToConsistent(b, k, q);
      }
  }

  /**
   * PostMoveActions of a King that may castle and moves to column 2 (or 6): GetPieceAtPosition
   * on column 1 (or 8) of its row finding nothing, or only the King's old square, is a
   * NullReference, a piece there that is not a Rook an InvalidCast.  A Rook there moves to
   * column 3 (or 5): afterwards the King, without its castling right, stands on t, the Rook,
   * without its castling right, on column 3 (or 5), nothing on the corner, and every other
   * piece is kept but those on the King's old square, on t and on the Rook's new square.
   */
  lemma {:induction false} CastlingMovesRook(b: BoardState, i: nat, t: Position, corner: Position, column: int)
    requires Consistent(b) && i < |b.pieces| && b.pieces[i].kind == King(true)
    requires t.OnBoard() && t != b.pieces[i].pos
    requires (t.column == 2 && corner == Position(1, t.row) && column == 3) ||
             (t.column == 6 && corner == Position(8, t.row) && column == 5)
    ensures
      var o := LastAt(b.pieces, corner);
      (o.None? || o == Some(i)) ==> MoveTo(b, i, t) == Err(NullReference)
    ensures
      var o := LastAt(b.pieces, corner);
      o.Some? && o.value != i && !b.pieces[o.value].kind.Rook? ==> MoveTo(b, i, t) == Err(InvalidCast)
    ensures
      var o := LastAt(b.pieces, corner);
      o.Some? && b.pieces[o.value].kind.Rook? ==>
        var king := b.pieces[i].(pos := t, kind := King(false));
        var rook := b.pieces[o.value].(pos := Position(column, t.row), kind := Rook(false));
        MoveTo(b, i, t).Ok? && Consistent(MoveTo(b, i, t).value) &&
        forall y :: y in MoveTo(b, i, t).value.pieces <==>
          (y == king || y == rook ||
           (y in b.pieces && y.pos != b.pieces[i].pos && y.pos != t && y.pos != corner &&
            y.pos != Position(column, t.row)))
  {
    var o := LastAt(b.pieces, corner);
    if o.None? || o == Some(i) {
      CastlingWithoutRook(b, i, t, corner, column);
    } else if !b.pieces[o.value].kind.Rook? {
      CastlingWithOtherPiece(b, i, t, corner, column);
    } else {
      CastlingWithRook(b, i, t, corner, column);
    }
  }

  /** Castling with no piece but the King itself on the corner is a NullReference. */
  lemma CastlingWithoutRook(b: BoardState, i: nat, t: Position, corner: Position, column: int)
    requires Consistent(b) && i < |b.pieces| && b.pieces[i].kind == King(true)
    requires t.OnBoard() && t != b.pieces[i].pos
    requires (t.column == 2 && corner == Position(1, t.row) && column == 3) ||
             (t.column == 6 && corner == Position(8, t.row) && column == 5)
    requires LastAt(b.pieces, corner).None? || LastAt(b.pieces, corner) == Some(i)
    ensures MoveTo(b, i, t) == Err(NullReference)
  {
    var bk := KingStepped(b, i, t);
    KingCastleStep(b, i, t, corner, column);
    if LastAt(b.pieces, corner).None? {
      NoneOnSquare(b.pieces, corner);
    }
    LastAtNone(bk.pieces, corner);
  }

  /** Castling with a piece other than a Rook on the corner is an InvalidCast. */
  lemma CastlingWithOtherPiece(b: BoardState, i: nat, t: Position, corner: Position, column: int)
    requires Consistent(b) && i < |b.pieces| && b.pieces[i].kind == King(true)
    requires t.OnBoard() && t != b.pieces[i].pos
    requires (t.column == 2 && corner == Position(1, t.row) && column == 3) ||
             (t.column == 6 && corner == Position(8, t.row) && column == 5)
    requires LastAt(b.pieces, corner).Some? && LastAt(b.pieces, corner).value != i
    requires !b.pieces[LastAt(b.pieces, corner).value].kind.Rook?
    ensures MoveTo(b, i, t) == Err(InvalidCast)
  {
    var ps := b.pieces;
    var bk := KingStepped(b, i, t);
    KingCastleStep(b, i, t, corner, column);
    var other := ps[LastAt(ps, corner).value];
    assert other.pos != ps[i].pos;
    assert other in bk.pieces;
    LastAtMember(bk.pieces, other);
  }

  /** Castling with a Rook on the corner moves the King and that Rook, and nothing else. */
  lemma CastlingWithRook(b: BoardState, i: nat, t: Position, corner: Position, column: int)
    requires Consistent(b) && i < |b.pieces| && b.pieces[i].kind == King(true)
    requires t.OnBoard() && t != b.pieces[i].pos
    requires (t.column == 2 && corner == Position(1, t.row) && column == 3) ||
             (t.column == 6 && corner == Position(8, t.row) && column == 5)
    requires LastAt(b.pieces, corner).Some? && b.pieces[LastAt(b.pieces, corner).value].kind.Rook?
    ensures
      var king := b.pieces[i].(pos := t, kind := King(false));
      var rook := b.pieces[LastAt(b.pieces, corner).value].(pos := Position(column, t.row), kind := Rook(false));
      MoveTo(b, i, t).Ok? && Consistent(MoveTo(b, i, t).value) &&
      forall y :: y in MoveTo(b, i, t).value.pieces <==>
        (y == king || y == rook ||
         (y in b.pieces && y.pos != b.pieces[i].pos && y.pos != t && y.pos != corner &&
          y.pos != Position(column, t.row)))
  {
    var ps := b.pieces;
    var bk := KingStepped(b, i, t);
    KingCastleStep(b, i, t, corner, column);
    var king := ps[i].(pos := t, kind := King(false));
    var rook := ps[LastAt(ps, corner).value];
    var q := Position(column, t.row);
    var moved := rook.(pos := q, kind := Rook(false));
    assert rook.pos != ps[i].pos;
    assert rook in bk.pieces;
    LastAtMember(bk.pieces, rook);
    CastleRookMeaning(bk, corner, column);
    var r := CastleRook(bk, corner, column).value.pieces;
    forall y ensures y in r <==>
      (y == king || y == moved || (y in ps && y.pos != ps[i].pos && y.pos != t && y.pos != corner && y.pos != q))
    {
      assert y in r <==> (y == moved || (y in bk.pieces && y.pos != corner && y.pos != q));
    }
  }

  /** The board after a King's step to t, written back without its castling right. */
  function KingStepped(b: BoardState, i: nat, t: Position): BoardState
    requires Consistent(b) && i < |b.pieces| && t.OnBoard()
  {
    var mover := b.pieces[i];
    var b1 := FlipBit(FlipBit(b, mover.side, mover.pos), mover.side, t);
    var idx := Survivor(i, FirstAt(b1.pieces, t));
    var b2 := Kill(b1, t);
    MoveStepConsistent(b, i, t);
    Put(b2, idx, mover.(pos := t, kind := King(false)))
  }

  /** A castling King's MoveTo is the rook relocation on the board after its own step. */
  lemma KingCastleStep(b: BoardState, i: nat, t: Position, corner: Position, column: int)
    requires Consistent(b) && i < |b.pieces| && b.pieces[i].kind == King(true)
    requires t.OnBoard() && t != b.pieces[i].pos
    requires (t.column == 2 && corner == Position(1, t.row) && column == 3) ||
             (t.column == 6 && corner == Position(8, t.row) && column == 5)
    ensures Consistent(KingStepped(b, i, t))
    ensures forall y :: y in KingStepped(b, i, t).pieces <==>
      (y == b.pieces[i].(pos := t, kind := King(false)) ||
       (y in b.pieces && y.pos != b.pieces[i].pos && y.pos != t))
    ensures MoveTo(b, i, t) == CastleRook(KingStepped(b, i, t), corner, column)
  {
    var mover := b.pieces[i];
    var b1 := FlipBit(FlipBit(b, mover.side, mover.pos), mover.side, t);
    var idx := Survivor(i, FirstAt(b1.pieces, t));
    var b2 := Kill(b1, t);
    var moved := mover.(pos := t);
    var king := mover.(pos := t, kind := King(false));
    MoveStepConsistent(b, i, t);
    MoveStepMembers(b, i, t, king);
    var b3 := Put(b2, idx, moved);
    assert Put(b3, idx, king) == KingStepped(b, i, t);
    PutConsistent(b3, idx, moved, king);
    assert MoveTo(b, i, t) == PostMoveActions(b3, moved, idx);
  }

  // ---------------------------------------------------------------------------------------
  // Castling rights.

  /** A King or Rook that may still castle. */
  predicate MayCastle(pc: Piece) {
    (pc.kind.King? || pc.kind.Rook?) && pc.kind.canCastle
  }

  /** The only listed piece on p, if any, is the one at index idx. */
  predicate OnlyAt(ps: seq<Piece>, p: Position, idx: Option<nat>) {
    forall k :: 0 <= k < |ps| && ps[k].pos == p ==> idx == Some(k)
  }

  /**
   * A move never grants a castling right: every piece that may castle afterwards was already
   * on the board before, and none of them stands on the target square, so a King or Rook that
   * moves has lost its right.
   */
  lemma {:induction false} CastlingRightsOnlyLost(b: BoardState, i: nat, t: Position)
    requires Consistent(b) && i < |b.pieces| && t.OnBoard()
    ensures MoveTo(b, i, t).Ok? ==>
      forall x :: x in MoveTo(b, i, t).value.pieces && MayCastle(x) ==> x in b.pieces && x.pos != t
    decreases MoveRank(b.pieces[i].kind), 1
  {
    var mover := b.pieces[i];
    var b1 := FlipBit(FlipBit(b, mover.side, mover.pos), mover.side, t);
    var killed := FirstAt(b1.pieces, t);
    var b2 := Kill(b1, t);
    var idx := Survivor(i, killed);
    var moved := mover.(pos := t);
    var b3 := Put(b2, idx, moved);
    assert b1.pieces == b.pieces;
    MoveStepConsistent(b, i, t);
    KillSubset(b1, t);
    if idx.None? {
      assert killed == Some(i);
      forall k | 0 <= k < |b2.pieces| ensures b2.pieces[k].pos != t {
        var k' := if k < i then k else k + 1;
        assert b2.pieces[k] == b.pieces[k'];
      }
    }
    assert OnlyAt(b3.pieces, t, idx);
    PostMoveRightsOnlyLost(b3, moved, idx);
    forall x | x in b3.pieces && x != moved ensures x in b.pieces {
      PutMember(b2, idx, moved, x);
    }
  }

  /** A piece of the list after a kill was in the list before. */
  lemma KillSubset(b: BoardState, p: Position)
    ensures forall x :: x in Kill(b, p).pieces ==> x in b.pieces
  {
    match FirstAt(b.pieces, p)
    case None =>
    case Some(k) =>
      forall x | x in RemoveAt(b.pieces, k) ensures x in b.pieces {
        var j :| 0 <= j < |RemoveAt(b.pieces, k)| && RemoveAt(b.pieces, k)[j] == x;
        var j' := if j < k then j else j + 1;
        assert b.pieces[j'] == x;
      }
  }

  /** A piece of the list after a write-back is the written piece or was in the list before. */
  lemma PutMember(b: BoardState, idx: Option<nat>, pc: Piece, x: Piece)
    requires idx.Some? ==> idx.value < |b.pieces|
    requires x in Put(b, idx, pc).pieces && x != pc
    ensures x in b.pieces
  {
    if idx.Some? {
      var j :| 0 <= j < |b.pieces[idx.value := pc]| && b.pieces[idx.value := pc][j] == x;
      assert b.pieces[j] == x;
    }
  }

  /** A piece other than the written one, after a write-back at the only index holding p. */
  lemma PutAway(b: BoardState, idx: Option<nat>, p: Position, y: Piece, x: Piece)
    requires idx.Some? ==> idx.value < |b.pieces|
    requires OnlyAt(b.pieces, p, idx)
    requires x in Put(b, idx, y).pieces && x != y
    ensures x in b.pieces && x.pos != p
  {
    var r := Put(b, idx, y).pieces;
    var j :| 0 <= j < |r| && r[j] == x;
    assert b.pieces[j] == x;
  }

  /**
   * After PostMoveActions of the piece pc, which stands on its target: every piece that may castle
   * was there before and stands elsewhere.
   */
  lemma {:induction false} PostMoveRightsOnlyLost(b: BoardState, pc: Piece, idx: Option<nat>)
    requires Consistent(b) && pc.pos.OnBoard()
    requires idx.Some? ==> idx.value < |b.pieces| && b.pieces[idx.value] == pc
    requires OnlyAt(b.pieces, pc.pos, idx)
    ensures PostMoveActions(b, pc, idx).Ok? ==>
      forall x :: x in PostMoveActions(b, pc, idx).value.pieces && MayCastle(x) ==> x in b.pieces && x.pos != pc.pos
    decreases MoveRank(pc.kind), 0
  {
    match pc.kind
    case Pawn(_, _) =>
      PawnRightsOnlyLost(b, pc, idx);
    case Rook(_) =>
      var x0 := pc.(kind := Rook(false));
      forall x | x in Put(b, idx, x0).pieces && MayCastle(x) ensures x in b.pieces && x.pos != pc.pos {
        PutAway(b, idx, pc.pos, x0, x);
      }
    case King(_) =>
      KingRightsOnlyLost(b, pc, idx);
    case _ =>
      forall x | x in b.pieces && MayCastle(x) ensures x.pos != pc.pos {
        var j :| 0 <= j < |b.pieces| && b.pieces[j] == x;
      }
  }

  /** The pawn case of PostMoveRightsOnlyLost. */
  lemma {:induction false} PawnRightsOnlyLost(b: BoardState, pc: Piece, idx: Option<nat>)
    requires Consistent(b) && pc.pos.OnBoard()
    requires idx.Some? ==> idx.value < |b.pieces| && b.pieces[idx.value] == pc
    requires OnlyAt(b.pieces, pc.pos, idx)
    requires pc.kind.Pawn?
    ensures PostMoveActions(b, pc, idx).Ok? ==>
      forall x :: x in PostMoveActions(b, pc, idx).value.pieces && MayCastle(x) ==> x in b.pieces && x.pos != pc.pos
  {
    var flag, init := pc.kind.allowEnPassantCapture, pc.kind.initialPosition;
    var moved := pc.(kind := Pawn(flag || pc.pos == DoubleStep(pc.side, init), init));
    var b1 := Put(b, idx, moved);
    var passed := PieceAt(b1, Behind(pc.side, pc.pos));
    forall x | x in b1.pieces && MayCastle(x) ensures x in b.pieces && x.pos != pc.pos {
      PutAway(b, idx, pc.pos, moved, x);
    }
    if passed.Some? && passed.value.kind.Pawn? && passed.value.kind.allowEnPassantCapture {
      KillSubset(b1, passed.value.pos);
      assert PostMoveActions(b, pc, idx) == Ok(Kill(b1, passed.value.pos));
    } else {
      assert PostMoveActions(b, pc, idx) == Ok(b1);
    }
  }

  /** The king case of PostMoveRightsOnlyLost. */
  lemma {:induction false} KingRightsOnlyLost(b: BoardState, pc: Piece, idx: Option<nat>)
    requires Consistent(b) && pc.pos.OnBoard()
    requires idx.Some? ==> idx.value < |b.pieces| && b.pieces[idx.value] == pc
    requires OnlyAt(b.pieces, pc.pos, idx)
    requires pc.kind.King?
    ensures PostMoveActions(b, pc, idx).Ok? ==>
      forall x :: x in PostMoveActions(b, pc, idx).value.pieces && MayCastle(x) ==> x in b.pieces && x.pos != pc.pos
    decreases 0, 3
  {
    var canCastle := pc.kind.canCastle;
    if canCastle {
      var x0 := pc.(kind := King(false));
      var b1 := Put(b, idx, x0);
      PutConsistent(b, idx, pc, x0);
      forall x | x in b1.pieces && MayCastle(x) ensures x in b.pieces && x.pos != pc.pos {
        PutAway(b, idx, pc.pos, x0, x);
      }
      if pc.pos.column == 2 {
        CastleRookRightsOnlyLost(b1, Position(1, pc.pos.row), 3);
      } else if pc.pos.column == 6 {
        CastleRookRightsOnlyLost(b1, Position(8, pc.pos.row), 5);
      }
    } else {
      forall x | x in b.pieces && MayCastle(x) ensures x.pos != pc.pos {
        var j :| 0 <= j < |b.pieces| && b.pieces[j] == x;
      }
    }
  }

  lemma {:induction false} CastleRookRightsOnlyLost(b: BoardState, corner: Position, column: int)
    requires Consistent(b) && corner.OnBoard() && Min <= column <= Max
    ensures CastleRook(b, corner, column).Ok? ==>
      forall x :: x in CastleRook(b, corner, column).value.pieces && MayCastle(x) ==> x in b.pieces
    decreases 0, 2
  {
    match LastAt(b.pieces, corner)
    case None =>
    case Some(k) =>
      if b.pieces[k].kind.Rook? {
        CastlingRightsOnlyLost(b, k, Position(column, b.pieces[k].pos.row));
      }
  }

  // ---------------------------------------------------------------------------------------
  // Check, safe moves and checkmate.

  /** Piece j belongs to the opponent of s and attacks square k. */
  predicate Checks(b: BoardState, s: Side, k: Position, j: nat)
    requires WellFormed(b) && j < |b.pieces|
  {
    b.pieces[j].side != s && Moves(b, j).Ok? && Attacks(b.pieces[j], k, Moves(b, j).value)
  }

  /**
   * The scan of IsKingInCheck over the first n pieces succeeds exactly when the moves of every
   * opponent piece among them can be computed.
   */
  lemma {:induction false} CheckScanOk(b: BoardState, s: Side, k: Position, n: nat)
    requires WellFormed(b) && n <= |b.pieces| && k.OnBoard()
    ensures CheckScan(b, s, k, n).Ok? <==>
      forall j :: 0 <= j < n && b.pieces[j].side != s ==> Moves(b, j).Ok?
  {
    if CheckScan(b, s, k, n).Ok? {
      forall j | 0 <= j < n && b.pieces[j].side != s ensures Moves(b, j).Ok? {
        CheckScanOkAt(b, s, k, n, j);
      }
    }
    if forall j :: 0 <= j < n && b.pieces[j].side != s ==> Moves(b, j).Ok? {
      CheckScanOkIf(b, s, k, n);
    }
  }

  /** A scan that succeeds over the first n pieces computed the moves of each opponent piece among them. */
  lemma CheckScanOkAt(b: BoardState, s: Side, k: Position, n: nat, j: nat)
    requires WellFormed(b) && j < n <= |b.pieces| && k.OnBoard() && CheckScan(b, s, k, n).Ok?
    requires b.pieces[j].side != s
    ensures Moves(b, j).Ok?
  {
    CheckScanOkPrefix(b, s, k, j + 1, n);
    CheckScanStep(b, s, k, j);
  }

  /** A scan that succeeds over the first n pieces succeeds over the first j. */
  lemma CheckScanOkPrefix(b: BoardState, s: Side, k: Position, j: nat, n: nat)
    requires WellFormed(b) && j <= n <= |b.pieces| && k.OnBoard()
    ensures CheckScan(b, s, k, n).Ok? ==> CheckScan(b, s, k, j).Ok?
  {
    if CheckScan(b, s, k, j).Err? {
      CheckScanErrPersists(b, s, k, j, n);
    }
  }

  /** The scan succeeds over the first n pieces when the moves of each opponent piece among them can be computed. */
  lemma {:induction false} CheckScanOkIf(b: BoardState, s: Side, k: Position, n: nat)
    requires WellFormed(b) && n <= |b.pieces| && k.OnBoard()
    requires forall j :: 0 <= j < n && b.pieces[j].side != s ==> Moves(b, j).Ok?
    ensures CheckScan(b, s, k, n).Ok?
  {
    if n > 0 {
      CheckScanOkIf(b, s, k, n - 1);
      CheckScanOkStep(b, s, k, n);
    }
  }

  /** When it succeeds, the scan answers whether one opponent piece among the first n attacks k. */
  lemma {:induction false} CheckScanMeaning(b: BoardState, s: Side, k: Position, n: nat)
    requires WellFormed(b) && n <= |b.pieces| && k.OnBoard()
    ensures CheckScan(b, s, k, n).Ok? ==>
      (CheckScan(b, s, k, n).value <==> exists j :: 0 <= j < n && Checks(b, s, k, j))
  {
    if n > 0 {
      CheckScanMeaning(b, s, k, n - 1);
      var prev := CheckScan(b, s, k, n - 1);
      var pc := b.pieces[n - 1];
      if prev.Ok? && pc.side != s {
        var m := Moves(b, n - 1);
        assert CheckScan(b, s, k, n) == if m.Ok? then Ok(prev.value || Attacks(pc, k, m.value)) else Err(m.error);
        if m.Ok? && Attacks(pc, k, m.value) {
          assert Checks(b, s, k, n - 1);
        }
      }
      if prev.Ok? && (exists j :: 0 <= j < n && Checks(b, s, k, j)) {
        var j :| 0 <= j < n && Checks(b, s, k, j);
        if j < n - 1 {
          assert prev.value;
        }
      }
    }
  }

  /**
   * IsKingInCheck with a single King of side s: it succeeds exactly when every opponent piece's
   * moves can be computed, and the King is in check exactly when one of them attacks its square.
   */
  lemma {:induction false} InCheckMeaning(b: BoardState, s: Side, king: Piece)
    requires WellFormed(b)
    requires king in b.pieces && king.kind.King? && king.side == s
    requires forall x :: x in b.pieces && x.kind.King? && x.side == s ==> x.pos == king.pos
    ensures InCheck(b, s).Ok? <==>
      forall j :: 0 <= j < |b.pieces| && b.pieces[j].side != s ==> Moves(b, j).Ok?
    ensures InCheck(b, s).Ok? ==>
      (InCheck(b, s).value <==> exists j :: 0 <= j < |b.pieces| && Checks(b, s, king.pos, j))
  {
    var kings := PiecesOfTypeAndSide(b.pieces, King(false), s);
    assert king in kings;
    assert kings[0].pos == king.pos;
    CheckScanOk(b, s, king.pos, |b.pieces|);
    CheckScanMeaning(b, s, king.pos, |b.pieces|);
  }

  /**
   * IsKingInCheck looks at the first King of side s in the list, whatever other Kings of that
   * side there are: it succeeds exactly when every opponent piece's moves can be computed, and
   * the answer is whether one of them attacks that King's square.
   */
  lemma {:induction false} InCheckFirstKing(b: BoardState, s: Side, j: nat)
    requires WellFormed(b) && j < |b.pieces| && b.pieces[j].kind.King? && b.pieces[j].side == s
    requires forall m :: 0 <= m < j ==> !(b.pieces[m].kind.King? && b.pieces[m].side == s)
    ensures InCheck(b, s).Ok? <==>
      forall k :: 0 <= k < |b.pieces| && b.pieces[k].side != s ==> Moves(b, k).Ok?
    ensures InCheck(b, s).Ok? ==>
      (InCheck(b, s).value <==> exists k :: 0 <= k < |b.pieces| && Checks(b, s, b.pieces[j].pos, k))
  {
    var kings := PiecesOfTypeAndSide(b.pieces, King(false), s);
    PiecesOfTypeAndSideFirst(b.pieces, j, King(false), s);
    CheckScanOk(b, s, b.pieces[j].pos, |b.pieces|);
    CheckScanMeaning(b, s, b.pieces[j].pos, |b.pieces|);
  }

  /** Without a King of side s, IsKingInCheck is an IndexOutOfRange. */
  lemma NoKingNoCheck(b: BoardState, s: Side)
    requires WellFormed(b)
    requires forall x :: x in b.pieces ==> !(x.kind.King? && x.side == s)
    ensures InCheck(b, s) == Err(IndexOutOfRange)
  {
    assert forall m :: 0 <= m < |b.pieces| ==> b.pieces[m] in b.pieces;
    PiecesOfTypeAndSideNone(b.pieces, King(false), s);
  }

  /** IsMoveSafe answers that moving pc to q is safe. */
  predicate SafeTo(b: BoardState, pc: Piece, q: Position)
    requires WellFormed(b) && q.OnBoard()
  {
    IsMoveSafe(b, pc, q) == Ok(true)
  }

  /** IsMoveSafe can answer for moving pc to q. */
  predicate SafeKnown(b: BoardState, pc: Piece, q: Position)
    requires WellFormed(b) && q.OnBoard()
  {
    IsMoveSafe(b, pc, q).Ok?
  }

  /** The answers of IsMoveSafe for the first n squares of ps. */
  function SafeChecks(b: BoardState, pc: Piece, ps: seq<Position>, n: nat): seq<Result<bool>>
    requires WellFormed(b) && n <= |ps| && forall q :: q in ps ==> q.OnBoard()
  {
    seq(n, k requires 0 <= k < n => IsMoveSafe(b, pc, ps[k]))
  }

  /** The loop of GetSafeMovesForCurrentPosition over n squares succeeds only when IsMoveSafe succeeds for each. */
  lemma SafeFilterOkOnlyIf(b: BoardState, pc: Piece, m: set<Position>, ps: seq<Position>, n: nat)
    requires WellFormed(b) && n <= |ps| && forall q :: q in ps ==> q.OnBoard()
    ensures SafeFilter(b, pc, m, ps, n).Ok? ==> forall k :: 0 <= k < n ==> SafeKnown(b, pc, ps[k])
  {
    var checks := SafeChecks(b, pc, ps, n);
    SafeFilterWith(b, pc, m, ps, checks);
    FilterWithOk(m, ps, checks);
    if SafeFilter(b, pc, m, ps, n).Ok? {
      forall k | 0 <= k < n ensures SafeKnown(b, pc, ps[k]) {
        assert checks[k].Ok?;
      }
    }
  }

  /** The loop of GetSafeMovesForCurrentPosition over n squares succeeds when IsMoveSafe succeeds for each. */
  lemma SafeFilterOkIf(b: BoardState, pc: Piece, m: set<Position>, ps: seq<Position>, n: nat)
    requires WellFormed(b) && n <= |ps| && forall q :: q in ps ==> q.OnBoard()
    ensures (forall k :: 0 <= k < n ==> SafeKnown(b, pc, ps[k])) ==> SafeFilter(b, pc, m, ps, n).Ok?
  {
    var checks := SafeChecks(b, pc, ps, n);
    SafeFilterWith(b, pc, m, ps, checks);
    FilterWithOk(m, ps, checks);
  }

  /**
   * The loop of GetSafeMovesForCurrentPosition over n distinct squares of m removes exactly the
   * squares IsMoveSafe rejects.
   */
  lemma SafeFilterMeaning(b: BoardState, pc: Piece, m: set<Position>, ps: seq<Position>, n: nat)
    requires WellFormed(b) && n <= |ps| && forall q :: q in ps ==> q.OnBoard()
    requires forall q :: q in ps ==> q in m
    requires StrictlyOrdered(ps)
    ensures SafeFilter(b, pc, m, ps, n).Ok? ==> forall q ::
      q in SafeFilter(b, pc, m, ps, n).value <==> q in m && (q in ps[..n] ==> SafeTo(b, pc, q))
  {
    var checks := SafeChecks(b, pc, ps, n);
    SafeFilterWith(b, pc, m, ps, checks);
    FilterWithMeaning(m, ps, checks);
    if SafeFilter(b, pc, m, ps, n).Ok? {
      forall q | q in ps[..n] ensures SafeTo(b, pc, q) <==> Accepted(ps, checks, q) {
        var k :| 0 <= k < n && ps[..n][k] == q;
        assert ps[k] == q;
        if SafeTo(b, pc, q) {
          forall k' | 0 <= k' < n && ps[k'] == q ensures checks[k'] == Ok(true) {
            assert k' == k by { OrderedDistinct(ps, k, k'); }
          }
        }
      }
    }
  }

  /** Strictly ordered squares are distinct. */
  lemma OrderedDistinct(ps: seq<Position>, i: nat, j: nat)
    requires StrictlyOrdered(ps) && i < |ps| && j < |ps| && ps[i] == ps[j]
    ensures i == j
  {
  }

  /** Every answer given for square q among the first |checks| squares of ps is Ok(true). */
  predicate Accepted(ps: seq<Position>, checks: seq<Result<bool>>, q: Position)
    requires |checks| <= |ps|
  {
    forall k :: 0 <= k < |checks| && ps[k] == q ==> checks[k] == Ok(true)
  }

  /** FilterWith succeeds exactly when every answer it reads is Ok. */
  lemma {:induction false} FilterWithOk(m: set<Position>, ps: seq<Position>, checks: seq<Result<bool>>)
    requires |checks| <= |ps|
    ensures FilterWith(m, ps, checks).Ok? <==> forall k :: 0 <= k < |checks| ==> checks[k].Ok?
  {
    if |checks| > 0 {
      var n := |checks| - 1;
      FilterWithOk(m, ps, checks[..n]);
      assert forall k :: 0 <= k < n ==> checks[..n][k] == checks[k];
    }
  }

  /**
   * When it succeeds over distinct squares of m, FilterWith keeps a square of m exactly when it
   * was not visited or every answer read for it was Ok(true).
   */
  lemma {:induction false} FilterWithMeaning(m: set<Position>, ps: seq<Position>, checks: seq<Result<bool>>)
    requires |checks| <= |ps| && StrictlyOrdered(ps) && forall q :: q in ps ==> q in m
    ensures FilterWith(m, ps, checks).Ok? ==> forall q ::
      q in FilterWith(m, ps, checks).value <==> q in m && (q in ps[..|checks|] ==> Accepted(ps, checks, q))
  {
    var n := |checks|;
    if n > 0 && FilterWith(m, ps, checks).Ok? {
      var shorter := checks[..n - 1];
      var last := ps[n - 1];
      FilterWithMeaning(m, ps, shorter);
      var prev := FilterWith(m, ps, shorter).value;
      assert last in ps;
      assert ps[..n] == ps[..n - 1] + [last];
      forall q ensures q in FilterWith(m, ps, checks).value <==> q in m && (q in ps[..n] ==> Accepted(ps, checks, q)) {
        if q == last {
          assert last !in ps[..n - 1] by {
            forall k | 0 <= k < n - 1 ensures ps[k] != last {
              assert Index(ps[k]) < Index(last);
            }
          }
          assert Accepted(ps, checks, q) <==> checks[n - 1] == Ok(true) by {
            forall k | 0 <= k < n - 1 ensures ps[k] != last {
              assert Index(ps[k]) < Index(last);
            }
          }
        } else {
          assert q in ps[..n] <==> q in ps[..n - 1];
          assert Accepted(ps, checks, q) <==> Accepted(ps, shorter, q) by {
            forall k | 0 <= k < n - 1 ensures shorter[k] == checks[k] { }
          }
        }
      }
    }
  }

  /**
   * GetSafeMovesForCurrentPosition succeeds when the moves can be computed and IsMoveSafe
   * succeeds for each of them on the board; the safe moves are the moves minus the squares of
   * the board to which the move is not safe.
   */
  lemma SafeMovesMeaning(b: BoardState, j: nat)
    requires WellFormed(b) && j < |b.pieces|
    ensures SafeMoves(b, j).Ok? <==> (Moves(b, j).Ok? &&
      forall q :: q in Moves(b, j).value && q.OnBoard() ==> SafeKnown(b, b.pieces[j], q))
    ensures SafeMoves(b, j).Ok? ==> forall q :: q in SafeMoves(b, j).value <==>
      q in Moves(b, j).value && (q.OnBoard() ==> SafeTo(b, b.pieces[j], q))
  {
    SafeMovesOk(b, j);
    SafeMovesValue(b, j);
  }

  /** GetSafeMovesForCurrentPosition succeeds exactly when the moves and every IsMoveSafe answer do. */
  lemma SafeMovesOk(b: BoardState, j: nat)
    requires WellFormed(b) && j < |b.pieces|
    ensures SafeMoves(b, j).Ok? <==> (Moves(b, j).Ok? &&
      forall q :: q in Moves(b, j).value && q.OnBoard() ==> SafeKnown(b, b.pieces[j], q))
  {
    if Moves(b, j).Ok? {
      var m := Moves(b, j).value;
      var ps := Enumerate(m);
      EnumerateProperties(m);
      assert SafeMoves(b, j) == SafeFilter(b, b.pieces[j], m, ps, |ps|);
      SafeFilterOkOnlyIf(b, b.pieces[j], m, ps, |ps|);
      SafeFilterOkIf(b, b.pieces[j], m, ps, |ps|);
      forall q | q in m && q.OnBoard() ensures exists k :: 0 <= k < |ps| && ps[k] == q {
        assert q in ps;
      }
    }
  }

  /** The safe moves are the moves minus the squares of the board to which the move is not safe. */
  lemma SafeMovesValue(b: BoardState, j: nat)
    requires WellFormed(b) && j < |b.pieces|
    ensures SafeMoves(b, j).Ok? ==> forall q :: q in SafeMoves(b, j).value <==>
      q in Moves(b, j).value && (q.OnBoard() ==> SafeTo(b, b.pieces[j], q))
  {
    if Moves(b, j).Ok? {
      var m := Moves(b, j).value;
      var ps := Enumerate(m);
      EnumerateProperties(m);
      assert SafeMoves(b, j) == SafeFilter(b, b.pieces[j], m, ps, |ps|);
      SafeFilterMeaning(b, b.pieces[j], m, ps, |ps|);
      assert ps[..|ps|] == ps;
    }
  }

  /**
   * The loop of IsKingInCheckmate over the first n pieces succeeds exactly when the safe moves of
   * every piece of side s among them can be computed.
   */
  lemma {:induction false} MobileScanOk(b: BoardState, s: Side, n: nat)
    requires WellFormed(b) && n <= |b.pieces|
    ensures MobileScan(b, s, n).Ok? <==>
      forall j :: 0 <= j < n && b.pieces[j].side == s ==> SafeMoves(b, j).Ok?
  {
    if n > 0 {
      MobileScanOk(b, s, n - 1);
    }
  }

  /** Piece j belongs to side s and has a safe move. */
  predicate Mobile(b: BoardState, s: Side, j: nat)
    requires WellFormed(b) && j < |b.pieces|
  {
    b.pieces[j].side == s && SafeMoves(b, j).Ok? && HasSquare(SafeMoves(b, j).value)
  }

  /** When it succeeds, the loop answers whether one piece of side s among the first n has a safe move. */
  lemma MobileScanMeaning(b: BoardState, s: Side, n: nat)
    requires WellFormed(b) && n <= |b.pieces|
    ensures MobileScan(b, s, n).Ok? ==> (MobileScan(b, s, n).value <==> exists j :: 0 <= j < n && Mobile(b, s, j))
  {
    if MobileScan(b, s, n).Ok? {
      if MobileScan(b, s, n).value {
        MobileScanWitness(b, s, n);
      } else {
        forall j | 0 <= j < n ensures !Mobile(b, s, j) {
          MobileScanNone(b, s, n, j);
        }
      }
    }
  }

  /** A loop that answers true has met a piece of side s with a safe move. */
  lemma {:induction false} MobileScanWitness(b: BoardState, s: Side, n: nat)
    requires WellFormed(b) && n <= |b.pieces| && MobileScan(b, s, n) == Ok(true)
    ensures exists j :: 0 <= j < n && Mobile(b, s, j)
  {
    MobileScanTrueStep(b, s, n);
    if !Mobile(b, s, n - 1) {
      MobileScanWitness(b, s, n - 1);
    }
  }

  /** A loop over n pieces that answers true found a safe move at piece n - 1 or already before it. */
  lemma MobileScanTrueStep(b: BoardState, s: Side, n: nat)
    requires WellFormed(b) && n <= |b.pieces| && MobileScan(b, s, n) == Ok(true)
    ensures n > 0 && (Mobile(b, s, n - 1) || MobileScan(b, s, n - 1) == Ok(true))
  {
    MobileScanStep(b, s, n - 1);
  }

  /** A loop that answers false has met no piece of side s with a safe move. */
  lemma {:induction false} MobileScanNone(b: BoardState, s: Side, n: nat, j: nat)
    requires WellFormed(b) && j < n <= |b.pieces| && MobileScan(b, s, n) == Ok(false)
    ensures !Mobile(b, s, j)
  {
    MobileScanFalseStep(b, s, n);
    if j < n - 1 {
      MobileScanNone(b, s, n - 1, j);
      assert !Mobile(b, s, j);
    } else {
      assert j == n - 1;
    }
  }

  /** A loop over n pieces that answers false did so over the first n - 1, and piece n - 1 has no safe move. */
  lemma MobileScanFalseStep(b: BoardState, s: Side, n: nat)
    requires WellFormed(b) && 0 < n <= |b.pieces| && MobileScan(b, s, n) == Ok(false)
    ensures !Mobile(b, s, n - 1) && MobileScan(b, s, n - 1) == Ok(false)
  {
    MobileScanStep(b, s, n - 1);
  }

  /**
   * IsKingInCheckmate: side s is checkmated exactly when its King is in check and none of its
   * pieces has a safe move; it succeeds when the check and every safe-move computation do.
   */
  lemma {:induction false} CheckmateMeaning(b: BoardState, s: Side)
    requires WellFormed(b)
    ensures Checkmate(b, s).Ok? <==> (InCheck(b, s).Ok? &&
      forall j :: 0 <= j < |b.pieces| && b.pieces[j].side == s ==> SafeMoves(b, j).Ok?)
    ensures Checkmate(b, s).Ok? ==>
      (Checkmate(b, s).value <==> (InCheck(b, s).value && forall j :: 0 <= j < |b.pieces| ==> !Mobile(b, s, j)))
  {
    MobileScanOk(b, s, |b.pieces|);
    MobileScanMeaning(b, s, |b.pieces|);
  }

  // ---------------------------------------------------------------------------------------
  // Castling.

  /**
   * The conditions of one castling side apart from safety: a Rook that may castle on the corner
   * column of the King's row, and no piece on the target and safe columns.
   */
  predicate CastleReady(b: BoardState, pc: Piece, corner: int, target: int, safe: int) {
    var row := pc.pos.row;
    var rook := PieceAt(b, Position(corner, row));
    rook.Some? && rook.value.kind.Rook? && rook.value.kind.canCastle &&
    PieceAt(b, Position(target, row)).None? && PieceAt(b, Position(safe, row)).None?
  }

  /** The King may castle on this side: not in check, the side is ready, and the step to safe is safe. */
  predicate CastlesTo(b: BoardState, pc: Piece, corner: int, target: int, safe: int)
    requires WellFormed(b) && Min <= safe <= Max && Min <= pc.pos.row <= Max
  {
    InCheck(b, pc.side) == Ok(false) && CastleReady(b, pc, corner, target, safe) &&
    SafeTo(b, pc, Position(safe, pc.pos.row))
  }

  /** One castling side adds its target square exactly when it is ready and the step is safe. */
  lemma {:induction false} CastleSideMeaning(b: BoardState, pc: Piece, moves: set<Position>, corner: int, target: int, safe: int)
    requires WellFormed(b) && pc.pos.OnBoard() && pc.side == b.moving && Min <= safe <= Max
    requires Position(target, pc.pos.row) !in moves
    ensures CastleSide(b, pc, moves, corner, target, safe).Ok? <==>
      (CastleReady(b, pc, corner, target, safe) ==> SafeKnown(b, pc, Position(safe, pc.pos.row)))
    ensures CastleSide(b, pc, moves, corner, target, safe).Ok? ==>
      CastleSide(b, pc, moves, corner, target, safe).value ==
        if CastleReady(b, pc, corner, target, safe) && SafeTo(b, pc, Position(safe, pc.pos.row))
        then moves + {Position(target, pc.pos.row)} else moves
  {
  }

  /** The King's moves before castling: its 3x3 block less friendly squares and an enemy on its own square. */
  function KingBase(b: BoardState, pc: Piece): set<Position> {
    KingShape(pc.pos) - (Locations(b, pc.side.Opponent()) * {pc.pos}) - Locations(b, pc.side)
  }

  /**
   * Castle on a base without the two target squares: the base when in check; otherwise the base
   * plus each target whose side may castle.  It fails when the check test fails, or when a
   * safety test of a ready side fails while not in check.
   */
  lemma {:induction false} CastleMeaning(b: BoardState, pc: Piece, base: set<Position>)
    requires WellFormed(b) && pc.pos.OnBoard() && pc.side == b.moving
    requires Position(2, pc.pos.row) !in base && Position(6, pc.pos.row) !in base
    ensures Castle(b, pc, base).Ok? <==> (InCheck(b, pc.side).Ok? &&
      (InCheck(b, pc.side) == Ok(false) ==>
        (CastleReady(b, pc, 1, 2, 3) ==> SafeKnown(b, pc, Position(3, pc.pos.row))) &&
        (CastleReady(b, pc, 8, 6, 5) ==> SafeKnown(b, pc, Position(5, pc.pos.row)))))
    ensures Castle(b, pc, base).Ok? ==>
      Castle(b, pc, base).value == base +
        (if CastlesTo(b, pc, 1, 2, 3) then {Position(2, pc.pos.row)} else {}) +
        (if CastlesTo(b, pc, 8, 6, 5) then {Position(6, pc.pos.row)} else {})
  {
    if InCheck(b, pc.side) == Ok(false) {
      CastleNotInCheckOk(b, pc, base);
      CastleNotInCheckValue(b, pc, base);
    }
  }

  /** Castle when the King is not in check fails only in a safety test of a ready side. */
  lemma {:induction false} CastleNotInCheckOk(b: BoardState, pc: Piece, base: set<Position>)
    requires WellFormed(b) && pc.pos.OnBoard() && pc.side == b.moving && InCheck(b, pc.side) == Ok(false)
    requires Position(2, pc.pos.row) !in base && Position(6, pc.pos.row) !in base
    ensures Castle(b, pc, base).Ok? <==>
      (CastleReady(b, pc, 1, 2, 3) ==> SafeKnown(b, pc, Position(3, pc.pos.row))) &&
      (CastleReady(b, pc, 8, 6, 5) ==> SafeKnown(b, pc, Position(5, pc.pos.row)))
  {
    var row := pc.pos.row;
    CastleSideMeaning(b, pc, base, 1, 2, 3);
    var s1 := CastleSide(b, pc, base, 1, 2, 3);
    if s1.Ok? {
      assert Position(6, row) !in s1.value;
      CastleSideMeaning(b, pc, s1.value, 8, 6, 5);
    }
  }

  /** Castle when the King is not in check adds the target of each side that may castle, the queen's side first. */
  lemma {:induction false} CastleNotInCheckValue(b: BoardState, pc: Piece, base: set<Position>)
    requires WellFormed(b) && pc.pos.OnBoard() && pc.side == b.moving && InCheck(b, pc.side) == Ok(false)
    requires Position(2, pc.pos.row) !in base && Position(6, pc.pos.row) !in base
    ensures Castle(b, pc, base).Ok? ==>
      Castle(b, pc, base).value == base +
        (if CastlesTo(b, pc, 1, 2, 3) then {Position(2, pc.pos.row)} else {}) +
        (if CastlesTo(b, pc, 8, 6, 5) then {Position(6, pc.pos.row)} else {})
  {
    var row := pc.pos.row;
    CastleSideMeaning(b, pc, base, 1, 2, 3);
    var s1 := CastleSide(b, pc, base, 1, 2, 3);
    if s1.Ok? {
      assert Position(6, row) !in s1.value;
      CastleSideMeaning(b, pc, s1.value, 8, 6, 5);
    }
  }

  /**
   * The moves of a King with a King table: its block when it may not castle (another side's
   * turn, or the right lost); otherwise, from column 4, what Castle adds to its block.
   */
  lemma {:induction false} KingMovesMeaning(b: BoardState, j: nat)
    requires WellFormed(b) && j < |b.pieces|
    requires b.pieces[j].kind.King? && TableMatches(b.pieces[j].moves, b.pieces[j].kind, b.pieces[j].side)
    ensures var pc := b.pieces[j];
      !(b.moving == pc.side && pc.kind.canCastle) ==> Moves(b, j) == Ok(KingBase(b, pc))
    ensures var pc := b.pieces[j];
      b.moving == pc.side && pc.kind.canCastle ==> Moves(b, j) == Castle(b, pc, KingBase(b, pc))
    ensures var pc := b.pieces[j];
      pc.pos.column == 4 ==> Position(2, pc.pos.row) !in KingBase(b, pc) && Position(6, pc.pos.row) !in KingBase(b, pc)
  {
    var pc := b.pieces[j];
    var o := pc.pos;
    var enemy, friendly := Locations(b, pc.side.Opponent()), Locations(b, pc.side);
    assert HasEntry(pc.kind, o);
    KingMoves(o, enemy, friendly);
    assert Refine(SquaresOf(pc.moves[o]), enemy, friendly, o) == KingBase(b, pc);
  }

  // ---------------------------------------------------------------------------------------
  // Moves of the other kinds.

  /**
   * Rooks, bishops and queens with a table of their kind: the moves are the squares of the shape
   * that hold no friendly piece and have no piece between them and the slider.
   */
  lemma {:induction false} SliderMovesMeaning(b: BoardState, j: nat)
    requires WellFormed(b) && j < |b.pieces|
    requires var pc := b.pieces[j]; (pc.kind.Rook? || pc.kind.Bishop? || pc.kind.Queen?) && TableMatches(pc.moves, pc.kind, pc.side)
    ensures Moves(b, j).Ok?
    ensures var pc := b.pieces[j];
      forall q :: q in Moves(b, j).value <==>
        q in Shape(pc.kind, pc.side, pc.pos) && q !in Locations(b, pc.side) &&
        Clear(pc.pos, q, Locations(b, pc.side.Opponent()) + Locations(b, pc.side))
  {
    var pc := b.pieces[j];
    assert HasEntry(pc.kind, pc.pos);
    SliderMoves(pc.kind, pc.side, pc.pos, Locations(b, pc.side.Opponent()), Locations(b, pc.side));
  }

  /** Knights with a knight table: the moves are the jumps that hold no friendly piece. */
  lemma {:induction false} KnightMovesMeaning(b: BoardState, j: nat)
    requires WellFormed(b) && j < |b.pieces|
    requires b.pieces[j].kind.Knight? && TableMatches(b.pieces[j].moves, Knight, b.pieces[j].side)
    ensures Moves(b, j) == Ok(KnightShape(b.pieces[j].pos) - Locations(b, b.pieces[j].side))
  {
    var pc := b.pieces[j];
    assert HasEntry(pc.kind, pc.pos);
    KnightMoves(pc.pos, Locations(b, pc.side.Opponent()), Locations(b, pc.side));
  }

  /** The pawn beside pc in column c may be taken en passant, as the pawn sees it. */
  predicate PassantBeside(b: BoardState, pc: Piece, c: int) {
    var p := Position(c, pc.pos.row);
    Min <= c <= Max && p in Locations(b, pc.side.Opponent()) && PieceAt(b, p).Some? && EnPassantTarget(PieceAt(b, p).value)
  }

  /** The forward diagonal of pc toward column c is a move: an enemy is there, or (exclusively) en passant. */
  predicate DiagonalMove(b: BoardState, pc: Piece, c: int) {
    Min <= c <= Max &&
    ((Position(c, Forward(pc.side, pc.pos.row)) in Locations(b, pc.side.Opponent())) != PassantBeside(b, pc, c))
  }

  /**
   * The pawn's moves on its shape are computed unless an enemy beside the pawn on the left is
   * not found by GetPieceAtPosition: that is a NullReference.
   */
  lemma {:induction false} PawnMovesOk(b: BoardState, pc: Piece)
    requires 2 <= pc.pos.row <= 7 && Min <= pc.pos.column <= Max
    ensures var left := Position(pc.pos.column - 1, pc.pos.row);
      PawnMoves(b, pc, PawnShape(pc.side, pc.pos)).Ok? <==>
        !(pc.pos.column > Min && left in Locations(b, pc.side.Opponent()) && PieceAt(b, left).None?)
  {
    var s1 := RefineForward(PawnShape(pc.side, pc.pos), Locations(b, pc.side), Locations(b, pc.side.Opponent()), pc.pos);
    assert PawnMoves(b, pc, PawnShape(pc.side, pc.pos)) == EnPassant(b, pc, PawnCaptures(b, pc, s1));
  }

  /**
   * The pawn's moves on its shape: the forward squares that are empty and not blocked, and each
   * forward diagonal on which an enemy stands or an en passant capture is possible, but not both
   * (the two flips cancel).
   */
  lemma {:induction false} PawnMovesMeaning(b: BoardState, pc: Piece)
    requires 2 <= pc.pos.row <= 7 && Min <= pc.pos.column <= Max
    ensures var c, ahead := pc.pos.column, Forward(pc.side, pc.pos.row);
      var friendly, enemy := Locations(b, pc.side), Locations(b, pc.side.Opponent());
      PawnMoves(b, pc, PawnShape(pc.side, pc.pos)).Ok? ==>
        forall q :: q in PawnMoves(b, pc, PawnShape(pc.side, pc.pos)).value <==>
          (q in PawnShape(pc.side, pc.pos) && q !in friendly && q !in enemy && Clear(pc.pos, q, friendly + enemy)) ||
          (q == Position(c - 1, ahead) && DiagonalMove(b, pc, c - 1)) ||
          (q == Position(c + 1, ahead) && DiagonalMove(b, pc, c + 1))
  {
    var o := pc.pos;
    var c, ahead := o.column, Forward(pc.side, o.row);
    var friendly, enemy := Locations(b, pc.side), Locations(b, pc.side.Opponent());
    PawnForwardMoves(pc.side, o, friendly, enemy);
    var s1 := RefineForward(PawnShape(pc.side, o), friendly, enemy, o);
    assert PawnMoves(b, pc, PawnShape(pc.side, o)) == EnPassant(b, pc, PawnCaptures(b, pc, s1));
    DiagonalFlips(b, pc, s1);
  }

  /**
   * The diagonal flips and the en passant flips on forward squares s1 in the pawn's column: the
   * squares of s1 and each forward diagonal that is a move.
   */
  lemma DiagonalFlips(b: BoardState, pc: Piece, s1: set<Position>)
    requires 2 <= pc.pos.row <= 7 && Min <= pc.pos.column <= Max
    requires forall q :: q in s1 ==> q.column == pc.pos.column
    ensures var c, ahead := pc.pos.column, Forward(pc.side, pc.pos.row);
      var r := EnPassant(b, pc, PawnCaptures(b, pc, s1));
      r.Ok? ==> forall q :: q in r.value <==>
        (q in s1 ||
         (q == Position(c - 1, ahead) && DiagonalMove(b, pc, c - 1)) ||
         (q == Position(c + 1, ahead) && DiagonalMove(b, pc, c + 1)))
  {
    var c, ahead := pc.pos.column, Forward(pc.side, pc.pos.row);
    var s3 := PawnCaptures(b, pc, s1);
    var left := EnPassantLeft(b, pc, s3);
    if left.Ok? {
      assert EnPassant(b, pc, s3) == Ok(EnPassantRight(b, pc, left.value));
    }
  }

  /**
   * A pawn's moves come from its table: with a pawn table a pawn on row 1 or 8 has no entry
   * (a KeyNotFound), and elsewhere its moves are PawnMoves on its shape.
   */
  lemma {:induction false} PawnTableMoves(b: BoardState, j: nat)
    requires WellFormed(b) && j < |b.pieces|
    requires b.pieces[j].kind.Pawn? && TableMatches(b.pieces[j].moves, b.pieces[j].kind, b.pieces[j].side)
    ensures var pc := b.pieces[j];
      Moves(b, j) == if 2 <= pc.pos.row <= 7 then PawnMoves(b, pc, PawnShape(pc.side, pc.pos)) else Err(KeyNotFound)
  {
    var pc := b.pieces[j];
    assert pc.pos in pc.moves <==> HasEntry(pc.kind, pc.pos);
  }

  /** A flagged pawn stands directly behind pc's square: the pawn pc passed by. */
  predicate PassedPawnBehind(b: BoardState, pc: Piece) {
    var passed := PieceAt(b, Behind(pc.side, pc.pos));
    passed.Some? && passed.value.kind.Pawn? && passed.value.kind.allowEnPassantCapture
  }

  /**
   * PostMoveActions of a pawn on a consistent board: the pawn is written back with its flag set
   * when it landed two rows ahead of its initial square, and a flagged pawn directly behind it
   * is captured, leaving that square empty; otherwise no other piece changes.
   */
  lemma {:induction false} PawnPostMoveMeaning(b: BoardState, pc: Piece, idx: nat)
    requires Consistent(b) && idx < |b.pieces| && b.pieces[idx] == pc && pc.kind.Pawn?
    ensures PostMoveActions(b, pc, Some(idx)).Ok?
    ensures var moved := pc.(kind := Pawn(pc.kind.allowEnPassantCapture || pc.pos == DoubleStep(pc.side, pc.kind.initialPosition), pc.kind.initialPosition));
      var r := PostMoveActions(b, pc, Some(idx)).value;
      moved in r.pieces && Consistent(r) &&
      (PassedPawnBehind(b, pc) ==>
        |r.pieces| == |b.pieces| - 1 && forall x :: x in r.pieces ==> x.pos != Behind(pc.side, pc.pos)) &&
      (!PassedPawnBehind(b, pc) ==> r.pieces == b.pieces[idx := moved])
  {
    var moved := pc.(kind := Pawn(pc.kind.allowEnPassantCapture || pc.pos == DoubleStep(pc.side, pc.kind.initialPosition), pc.kind.initialPosition));
    PutConsistent(b, Some(idx), pc, moved);
    var b1 := Put(b, Some(idx), moved);
    var behind := Behind(pc.side, pc.pos);
    assert b1.pieces[idx] == moved;
    assert PieceAt(b1, behind) == PieceAt(b, behind) by {
      assert LastAt(b1.pieces, behind) == LastAt(b.pieces, behind) by {
        LastAtUpdate(b.pieces, idx, moved, behind);
      }
    }
    if PassedPawnBehind(b, pc) {
      PassedPawnCaptured(b1, moved, idx, behind);
    }
  }

  /** Capturing the pawn on the square behind keeps the board consistent and the moved pawn listed. */
  lemma {:induction false} PassedPawnCaptured(b1: BoardState, moved: Piece, idx: nat, behind: Position)
    requires Consistent(b1) && idx < |b1.pieces| && b1.pieces[idx] == moved && moved.pos != behind
    requires FirstAt(b1.pieces, behind).Some?
    ensures var r := Kill(b1, behind);
      Consistent(r) && moved in r.pieces && |r.pieces| == |b1.pieces| - 1 &&
      forall x :: x in r.pieces ==> x.pos != behind
  {
    KillConsistent(b1, behind);
    var k := FirstAt(b1.pieces, behind).value;
    var r := RemoveAt(b1.pieces, k);
    assert Kill(b1, behind).pieces == r;
    var idx' := if idx < k then idx else idx - 1;
    assert r[idx'] == moved;
    forall x | x in r ensures x.pos != behind {
      var m :| 0 <= m < |r| && r[m] == x;
      var m' := if m < k then m else m + 1;
      assert b1.pieces[m'] == x;
    }
  }

  /** Writing a piece on another square at an index does not change where the last piece on p is. */
  lemma {:induction false} LastAtUpdate(ps: seq<Piece>, k: nat, x: Piece, p: Position)
    requires k < |ps| && x.pos == ps[k].pos
    ensures LastAt(ps[k := x], p) == LastAt(ps, p)
    decreases |ps|
  {
    if |ps| > 0 && ps[|ps| - 1].pos != p && k < |ps| - 1 {
      assert ps[k := x][..|ps| - 1] == ps[..|ps| - 1][k := x];
      LastAtUpdate(ps[..|ps| - 1], k, x, p);
    }
  }

  // ---------------------------------------------------------------------------------------
  // An exception ends the scanning loops: once a prefix fails, every longer prefix fails alike.

  /** One step of the loop of GetSafeMovesForCurrentPosition. */
  lemma SafeFilterStep(b: BoardState, pc: Piece, m: set<Position>, ps: seq<Position>, j: nat)
    requires WellFormed(b) && j < |ps| && forall q :: q in ps ==> q.OnBoard()
    ensures SafeFilter(b, pc, m, ps, j).Err? ==> SafeFilter(b, pc, m, ps, j + 1) == SafeFilter(b, pc, m, ps, j)
    ensures SafeFilter(b, pc, m, ps, j).Ok? && IsMoveSafe(b, pc, ps[j]).Err? ==>
      SafeFilter(b, pc, m, ps, j + 1) == Err(IsMoveSafe(b, pc, ps[j]).error)
    ensures SafeFilter(b, pc, m, ps, j).Ok? && IsMoveSafe(b, pc, ps[j]).Ok? ==>
      var acc := SafeFilter(b, pc, m, ps, j).value;
      SafeFilter(b, pc, m, ps, j + 1) == Ok(if IsMoveSafe(b, pc, ps[j]).value then acc else Toggle(acc, ps[j]))
  {
    assert ps[j] in ps;
  }

  /** One step of the loop of IsKingInCheck. */
  lemma CheckScanStep(b: BoardState, s: Side, k: Position, j: nat)
    requires WellFormed(b) && j < |b.pieces| && k.OnBoard()
    ensures CheckScan(b, s, k, j).Err? ==> CheckScan(b, s, k, j + 1) == CheckScan(b, s, k, j)
    ensures CheckScan(b, s, k, j).Ok? && b.pieces[j].side == s ==> CheckScan(b, s, k, j + 1) == CheckScan(b, s, k, j)
    ensures CheckScan(b, s, k, j).Ok? && b.pieces[j].side != s && Moves(b, j).Err? ==> CheckScan(b, s, k, j + 1) == Err(Moves(b, j).error)
    ensures CheckScan(b, s, k, j).Ok? && b.pieces[j].side != s && Moves(b, j).Ok? ==>
      CheckScan(b, s, k, j + 1) == Ok(CheckScan(b, s, k, j).value || Attacks(b.pieces[j], k, Moves(b, j).value))
  {
  }

  lemma CheckScanOkStep(b: BoardState, s: Side, k: Position, n: nat)
    requires WellFormed(b) && 0 < n <= |b.pieces| && k.OnBoard() && CheckScan(b, s, k, n - 1).Ok?
    requires forall j :: 0 <= j < n && b.pieces[j].side != s ==> Moves(b, j).Ok?
    ensures CheckScan(b, s, k, n).Ok?
  {
  }

  /** SafeFilter over the first |checks| squares of ps, with the answers of IsMoveSafe given as checks. */
  function FilterWith(m: set<Position>, ps: seq<Position>, checks: seq<Result<bool>>): Result<set<Position>>
    requires |checks| <= |ps|
  {
    if |checks| == 0 then Ok(m)
    else
      var n := |checks| - 1;
      var acc :- FilterWith(m, ps, checks[..n]);
      var safe :- checks[n];
      Ok(if safe then acc else Toggle(acc, ps[n]))
  }

  /** The k-th entry of checks is the answer of IsMoveSafe for the k-th square of ps. */
  predicate Answers(b: BoardState, pc: Piece, ps: seq<Position>, checks: seq<Result<bool>>, k: nat)
    requires WellFormed(b) && k < |ps| && k < |checks| && ps[k].OnBoard()
  {
    checks[k] == IsMoveSafe(b, pc, ps[k])
  }

  /** With the answers IsMoveSafe gives, FilterWith is SafeFilter. */
  lemma {:induction false} SafeFilterWith(b: BoardState, pc: Piece, m: set<Position>, ps: seq<Position>, checks: seq<Result<bool>>)
    requires WellFormed(b) && |checks| <= |ps| && forall q :: q in ps ==> q.OnBoard()
    requires forall k :: 0 <= k < |checks| ==> Answers(b, pc, ps, checks, k)
    ensures SafeFilter(b, pc, m, ps, |checks|) == FilterWith(m, ps, checks)
  {
    var n := |checks|;
    if n > 0 {
      var shorter := checks[..n - 1];
      forall k | 0 <= k < n - 1 ensures Answers(b, pc, ps, shorter, k) {
        assert ps[k] in ps;
        assert Answers(b, pc, ps, checks, k);
      }
      SafeFilterWith(b, pc, m, ps, shorter);
      var prev := SafeFilter(b, pc, m, ps, n - 1);
      var last := ps[n - 1];
      assert last in ps;
      assert Answers(b, pc, ps, checks, n - 1);
      if prev.Ok? {
        SafeFilterStep(b, pc, m, ps, n - 1);
      }
    }
  }

  /** One step of the loop of IsKingInCheckmate. */
  lemma MobileScanStep(b: BoardState, s: Side, j: nat)
    requires WellFormed(b) && j < |b.pieces|
    ensures MobileScan(b, s, j).Err? ==> MobileScan(b, s, j + 1) == MobileScan(b, s, j)
    ensures MobileScan(b, s, j).Ok? && b.pieces[j].side != s ==> MobileScan(b, s, j + 1) == MobileScan(b, s, j)
    ensures MobileScan(b, s, j).Ok? && b.pieces[j].side == s && SafeMoves(b, j).Err? ==>
      MobileScan(b, s, j + 1) == Err(SafeMoves(b, j).error)
    ensures MobileScan(b, s, j).Ok? && b.pieces[j].side == s && SafeMoves(b, j).Ok? ==>
      MobileScan(b, s, j + 1) == Ok(MobileScan(b, s, j).value || HasSquare(SafeMoves(b, j).value))
  {
  }

  lemma MobileScanErrStep(b: BoardState, s: Side, j: nat)
    requires WellFormed(b) && j < |b.pieces| && MobileScan(b, s, j).Err?
    ensures MobileScan(b, s, j + 1) == MobileScan(b, s, j)
  {
  }

  lemma {:induction false} CheckScanErrPersists(b: BoardState, s: Side, k: Position, j: nat, n: nat)
    requires WellFormed(b) && j <= n <= |b.pieces| && k.OnBoard()
    requires CheckScan(b, s, k, j).Err?
    ensures CheckScan(b, s, k, n) == CheckScan(b, s, k, j)
    decreases n
  {
    if n > j {
      CheckScanErrPersists(b, s, k, j, n - 1);
    }
  }

  lemma SafeFilterErrPersists(b: BoardState, pc: Piece, m: set<Position>, ps: seq<Position>, j: nat, n: nat)
    requires WellFormed(b) && j <= n <= |ps| && forall q :: q in ps ==> q.OnBoard()
    requires SafeFilter(b, pc, m, ps, j).Err?
    ensures SafeFilter(b, pc, m, ps, n) == SafeFilter(b, pc, m, ps, j)
  {
    var checks := SafeChecks(b, pc, ps, n);
    assert SafeChecks(b, pc, ps, j) == checks[..j];
    SafeFilterWith(b, pc, m, ps, checks);
    SafeFilterWith(b, pc, m, ps, checks[..j]);
    FilterWithErrPersists(m, ps, checks, j);
  }

  lemma {:induction false} FilterWithErrPersists(m: set<Position>, ps: seq<Position>, checks: seq<Result<bool>>, j: nat)
    requires j <= |checks| <= |ps| && FilterWith(m, ps, checks[..j]).Err?
    ensures FilterWith(m, ps, checks) == FilterWith(m, ps, checks[..j])
  {
    if j < |checks| {
      var shorter := checks[..|checks| - 1];
      assert shorter[..j] == checks[..j];
      FilterWithErrPersists(m, ps, shorter, j);
    } else {
      assert checks[..j] == checks;
    }
  }

  lemma {:induction false} MobileScanErrPersists(b: BoardState, s: Side, j: nat, n: nat)
    requires WellFormed(b) && j <= n <= |b.pieces|
    requires MobileScan(b, s, j).Err?
    ensures MobileScan(b, s, n) == MobileScan(b, s, j)
    decreases n
  {
    if n > j {
      MobileScanErrPersists(b, s, j, n - 1);
      MobileScanErrStep(b, s, n - 1);
    }
  }
}
