/**
 * ComputeMoves of every piece kind: the loops that fill a fresh bitboard for every square a
 * piece can stand on, proved to mark exactly the shape of that kind.
 */
module Shapes {
  import opened Constants
  import opened Movement
  import opened Bitboards
  import opened Rays
  import opened Pieces

  /** Flip a square that is not yet marked: it becomes marked. */
  method Mark(bb: Bitboard, p: Position)
    requires bb.Valid() && p.OnBoard() && p !in bb.Squares()
    modifies bb.bits
    ensures bb.Valid() && bb.Squares() == old(bb.Squares()) + {p}
  {
    var _ := bb.FlipPosition(p);
  }

  /** The rank loop and the file loop of the rook and the queen. */
  method MarkRankAndFile(bb: Bitboard, o: Position)
    requires bb.Valid() && o.OnBoard() && bb.Squares() * RookShape(o) == {}
    modifies bb.bits
    ensures bb.Valid() && bb.Squares() == old(bb.Squares()) + RookShape(o)
  {
    ghost var s0 := bb.Squares();
    MarkRank(bb, o);
    MarkFile(bb, o, s0);
  }

  /** The rank loop: every other square of the row of o. */
  method MarkRank(bb: Bitboard, o: Position)
    requires bb.Valid() && o.OnBoard()
    requires bb.Squares() * RookShape(o) == {}
    modifies bb.bits
    ensures bb.Valid()
    ensures forall q :: q in bb.Squares() <==> q in old(bb.Squares()) || (q in RookShape(o) && q.row == o.row)
  {
    ghost var s0 := bb.Squares();
    var positionColumn := Min;
    while positionColumn <= Max
      invariant Min <= positionColumn <= Max + 1 && bb.Valid()
      invariant forall q :: q in bb.Squares() <==> q in s0 || (q in RookShape(o) && q.row == o.row && q.column < positionColumn)
    {
      if positionColumn != o.column {
        var p := Position(positionColumn, o.row);
        InAllSquares(p);
        assert p !in s0 * RookShape(o);
        Mark(bb, p);
      }
      positionColumn := positionColumn + 1;
    }
  }

  /** The file loop: every other square of the column of o, added to squares s0 and the row of o. */
  method MarkFile(bb: Bitboard, o: Position, ghost s0: set<Position>)
    requires bb.Valid() && o.OnBoard() && s0 * RookShape(o) == {}
    requires forall q :: q in bb.Squares() <==> q in s0 || (q in RookShape(o) && q.row == o.row)
    modifies bb.bits
    ensures bb.Valid() && bb.Squares() == s0 + RookShape(o)
  {
    ghost var s1 := bb.Squares();
    var positionRow := Min;
    while positionRow <= Max
      invariant Min <= positionRow <= Max + 1 && bb.Valid()
      invariant forall q :: q in bb.Squares() <==> q in s1 || (q in RookShape(o) && q.column == o.column && q.row < positionRow)
    {
      if positionRow != o.row {
        var p := Position(o.column, positionRow);
        InAllSquares(p);
        assert p !in s0 * RookShape(o);
        Mark(bb, p);
      }
      positionRow := positionRow + 1;
    }
  }

  /** The diagonal loops of the bishop and the queen: first the columns right of o, then left. */
  method MarkDiagonals(bb: Bitboard, o: Position)
    requires bb.Valid() && o.OnBoard() && bb.Squares() * BishopShape(o) == {}
    modifies bb.bits
    ensures bb.Valid() && bb.Squares() == old(bb.Squares()) + BishopShape(o)
  {
    ghost var s0 := bb.Squares();
    assert forall q :: q in s0 ==> q !in BishopShape(o) by {
      forall q | q in s0 ensures q !in BishopShape(o) {
        assert q !in s0 * BishopShape(o);
      }
    }
    var positionColumn := o.column + 1;
    while positionColumn <= Max
      invariant o.column + 1 <= positionColumn <= Max + 1 && bb.Valid()
      invariant forall q :: q in bb.Squares() <==> q in s0 || (q in BishopShape(o) && o.column < q.column < positionColumn)
    {
      MarkDiagonalColumn(bb, o, positionColumn, positionColumn - o.column);
      positionColumn := positionColumn + 1;
    }
    ghost var s1 := bb.Squares();
    positionColumn := o.column - 1;
    while positionColumn >= Min
      invariant Min - 1 <= positionColumn <= o.column - 1 && bb.Valid()
      invariant forall q :: q in bb.Squares() <==> q in s1 || (q in BishopShape(o) && positionColumn < q.column < o.column)
    {
      MarkDiagonalColumn(bb, o, positionColumn, o.column - positionColumn);
      positionColumn := positionColumn - 1;
    }
  }

  /** One step of a diagonal loop: the squares d rows above and below o in column positionColumn. */
  method MarkDiagonalColumn(bb: Bitboard, o: Position, positionColumn: int, d: int)
    requires bb.Valid() && o.OnBoard() && Min <= positionColumn <= Max
    requires d > 0 && d == Abs(positionColumn - o.column)
    requires forall q :: q in bb.Squares() && q in BishopShape(o) ==> q.column != positionColumn
    modifies bb.bits
    ensures bb.Valid()
    ensures forall q :: q in bb.Squares() <==> q in old(bb.Squares()) || (q in BishopShape(o) && q.column == positionColumn)
  {
    var above, below := Position(positionColumn, o.row + d), Position(positionColumn, o.row - d);
    BishopColumn(o, positionColumn, d);
    if above.row <= Max {
      InAllSquares(above);
      Mark(bb, above);
    }
    if below.row >= Min {
      InAllSquares(below);
      Mark(bb, below);
    }
  }

  /** The squares of the bishop's shape in a column d away from o: d rows above and d rows below. */
  lemma BishopColumn(o: Position, c: int, d: int)
    requires o.OnBoard() && Min <= c <= Max && d > 0 && d == Abs(c - o.column)
    ensures forall q :: q in BishopShape(o) && q.column == c <==>
      (q == Position(c, o.row + d) && o.row + d <= Max) || (q == Position(c, o.row - d) && o.row - d >= Min)
  {
    forall q ensures q in BishopShape(o) && q.column == c <==>
      (q == Position(c, o.row + d) && o.row + d <= Max) || (q == Position(c, o.row - d) && o.row - d >= Min)
    {
      InAllSquares(q);
    }
  }

  /** The king's 3x3 loop, skipping squares off the board. */
  method MarkKing(bb: Bitboard, o: Position)
    requires bb.Valid() && o.OnBoard() && bb.Squares() == {}
    modifies bb.bits
    ensures bb.Valid() && bb.Squares() == KingShape(o)
  {
    var positionColumn := o.column - 1;
    while positionColumn <= o.column + 1
      invariant o.column - 1 <= positionColumn <= o.column + 2 && bb.Valid()
      invariant forall q :: q in bb.Squares() <==> q in KingShape(o) && q.column < positionColumn
    {
      MarkKingColumn(bb, o, positionColumn);
      positionColumn := positionColumn + 1;
    }
  }

  /** The inner loop of the king's: the three rows around o in column positionColumn. */
  method MarkKingColumn(bb: Bitboard, o: Position, positionColumn: int)
    requires bb.Valid() && o.column - 1 <= positionColumn <= o.column + 1
    requires forall q :: q in bb.Squares() ==> q.column < positionColumn
    modifies bb.bits
    ensures bb.Valid()
    ensures forall q :: q in bb.Squares() <==> q in old(bb.Squares()) || (q in KingShape(o) && q.column == positionColumn)
  {
    ghost var s0 := bb.Squares();
    var positionRow := o.row - 1;
    while positionRow <= o.row + 1
      invariant o.row - 1 <= positionRow <= o.row + 2 && bb.Valid()
      invariant forall q :: q in bb.Squares() <==>
        q in s0 || (q in KingShape(o) && q.column == positionColumn && q.row < positionRow)
    {
      var p := Position(positionColumn, positionRow);
      InAllSquares(p);
      if Min <= positionColumn <= Max && Min <= positionRow <= Max {
        Mark(bb, p);
      }
      positionRow := positionRow + 1;
    }
  }

  /** The eight candidate jumps, in the order the knight lists them. */
  function KnightCandidates(o: Position): (js: seq<Position>)
    ensures |js| == 8
    ensures forall q :: q in js <==> KnightJump(o, q)
    ensures forall i, j :: 0 <= i < j < |js| ==> js[i] != js[j]
  {
    var c, r := o.column, o.row;
    [Position(c + 2, r + 1), Position(c + 2, r - 1), Position(c - 2, r + 1), Position(c - 2, r - 1),
     Position(c + 1, r + 2), Position(c + 1, r - 2), Position(c - 1, r + 2), Position(c - 1, r - 2)]
  }

  /** The knight's loop over its candidate jumps, skipping those off the board. */
  method MarkKnight(bb: Bitboard, o: Position)
    requires bb.Valid() && bb.Squares() == {}
    modifies bb.bits
    ensures bb.Valid() && bb.Squares() == KnightShape(o)
  {
    var jumps := KnightCandidates(o);
    var k := 0;
    while k < |jumps|
      invariant 0 <= k <= |jumps| && bb.Valid()
      invariant forall q :: q in bb.Squares() <==> q in jumps[..k] && q.OnBoard()
    {
      var p := jumps[k];
      assert jumps[..k + 1] == jumps[..k] + [p];
      if Min <= p.column <= Max && Min <= p.row <= Max {
        var _ := bb.FlipPosition(p);
      }
      k := k + 1;
    }
    assert jumps[..k] == jumps;
    forall q ensures q in bb.Squares() <==> q in KnightShape(o) {
      InAllSquares(q);
    }
  }

  /** One entry of the table of a non-pawn kind: a fresh bitboard marking the shape at o. */
  method SquareMoves(kind: Kind, o: Position) returns (bb: Bitboard)
    requires !kind.Pawn? && o.OnBoard()
    ensures fresh(bb) && fresh(bb.bits) && bb.Valid()
    ensures bb.Squares() == Shape(kind, Black, o)
  {
    bb := new Bitboard();
    match kind {
      case Rook(_) =>
        MarkRankAndFile(bb, o);
      case Bishop =>
        MarkDiagonals(bb, o);
      case Queen =>
        QueenIsRookAndBishop(o);
        MarkRankAndFile(bb, o);
        MarkDiagonals(bb, o);
      case Knight =>
        MarkKnight(bb, o);
      case King(_) =>
        MarkKing(bb, o);
    }
  }

  /**
   * ComputeMoves of rooks, knights, bishops, queens and kings: one entry for every square,
   * column by column.
   */
  method ComputeMoves(kind: Kind, side: Side) returns (moves: map<Position, Rows>)
    requires !kind.Pawn?
    ensures TableMatches(moves, kind, side)
  {
    moves := map[];
    var column := Min;
    while column <= Max
      invariant Min <= column <= Max + 1
      invariant forall p :: p in moves <==> p.OnBoard() && p.column < column
      invariant forall p :: p in moves ==> SquaresOf(moves[p]) == Shape(kind, side, p)
    {
      var row := Min;
      while row <= Max
        invariant Min <= row <= Max + 1
        invariant forall p :: p in moves <==> p.OnBoard() && (p.column < column || (p.column == column && p.row < row))
        invariant forall p :: p in moves ==> SquaresOf(moves[p]) == Shape(kind, side, p)
      {
        var position := Position(column, row);
        var bb := SquareMoves(kind, position);
        moves := moves[position := bb.bits[..]];
        row := row + 1;
      }
      column := column + 1;
    }
  }

  /** A fresh bitboard marking the given on-board squares. */
  method Marked(ps: seq<Position>) returns (rows: Rows)
    requires forall p :: p in ps ==> p.OnBoard()
    requires forall i, j :: 0 <= i < j < |ps| ==> ps[i] != ps[j]
    ensures SquaresOf(rows) == set p | p in ps
  {
    var bb := new Bitboard();
    var k := 0;
    while k < |ps|
      invariant 0 <= k <= |ps| && bb.Valid()
      invariant fresh(bb.bits)
      invariant forall p :: p in bb.Squares() <==> p in ps[..k]
    {
      assert ps[..k + 1] == ps[..k] + [ps[k]];
      var _ := bb.FlipPosition(ps[k]);
      k := k + 1;
    }
    assert ps[..k] == ps;
    rows := bb.bits[..];
  }

  /**
   * The pawn's ComputeMoves: for Black the starting row 7 gets rows 6 and 5, rows 6 down to 2
   * get the row below; for White the starting row 2 gets rows 3 and 4, rows 3 up to 7 get the
   * row above.
   */
  method ComputePawnMoves(side: Side) returns (moves: map<Position, Rows>)
    ensures TableMatches(moves, Pawn(false, Position(Min, Min)), side)
  {
    var kind := Pawn(false, Position(Min, Min));
    moves := map[];
    var row := StartRow(side);
    var column := Min;
    while column <= Max
      invariant Min <= column <= Max + 1
      invariant forall p :: p in moves <==> p.OnBoard() && p.row == row && p.column < column
      invariant forall p :: p in moves ==> SquaresOf(moves[p]) == Shape(kind, side, p)
    {
      var position := Position(column, row);
      var one := Position(column, Forward(side, row));
      var rows := Marked([one, Position(column, Forward(side, one.row))]);
      moves := moves[position := rows];
      column := column + 1;
    }
    if side == Black {
      row := 6;
      while row >= 2
        invariant 1 <= row <= 6
        invariant forall p :: p in moves <==> p.OnBoard() && row < p.row <= 7
        invariant forall p :: p in moves ==> SquaresOf(moves[p]) == Shape(kind, side, p)
      {
        moves := MarkRow(moves, kind, side, row);
        row := row - 1;
      }
    } else {
      row := 3;
      while row <= 7
        invariant 3 <= row <= 8
        invariant forall p :: p in moves <==> p.OnBoard() && 2 <= p.row < row
        invariant forall p :: p in moves ==> SquaresOf(moves[p]) == Shape(kind, side, p)
      {
        moves := MarkRow(moves, kind, side, row);
        row := row + 1;
      }
    }
  }

  /** The inner column loop for one non-starting pawn row: one square forward from each. */
  method MarkRow(moves0: map<Position, Rows>, kind: Kind, side: Side, row: int) returns (moves: map<Position, Rows>)
    requires kind.Pawn? && 2 <= row <= 7 && row != StartRow(side)
    requires forall p :: p in moves0 ==> p.row != row
    ensures forall p :: p in moves <==> p in moves0 || (p.OnBoard() && p.row == row)
    ensures forall p :: p in moves0 && p.row != row ==> p in moves && moves[p] == moves0[p]
    ensures forall p :: p in moves && p.row == row ==> SquaresOf(moves[p]) == Shape(kind, side, p)
  {
    moves := moves0;
    var column := Min;
    while column <= Max
      invariant Min <= column <= Max + 1
      invariant forall p :: p in moves <==> p in moves0 || (p.OnBoard() && p.row == row && p.column < column)
      invariant forall p :: p in moves0 && p.row != row ==> moves[p] == moves0[p]
      invariant forall p :: p in moves && p.row == row && p.column < column ==> SquaresOf(moves[p]) == Shape(kind, side, p)
    {
      var position := Position(column, row);
      var rows := Marked([Position(column, Forward(side, row))]);
      moves := moves[position := rows];
      column := column + 1;
    }
  }

  /**
   * A new piece of the kind's class on pos, as the constructors build it: the table of its kind
   * computed for side, and the fields InitializationActions sets.
   */
  method CreatePiece(kind: Kind, side: Side, pos: Position) returns (pc: Piece)
    ensures pc.kind == InitialKind(kind, pos) && pc.side == side && pc.pos == pos
    ensures TableMatches(pc.moves, pc.kind, side)
  {
    var moves;
    if kind.Pawn? {
      moves := ComputePawnMoves(side);
    } else {
      moves := ComputeMoves(kind, side);
    }
    pc := Piece(InitialKind(kind, pos), side, pos, moves);
  }
}
