/**
 * The move chooser (Assets/Scripts/AI.cs): it walks the pieces of one side in list order and
 * the safe moves of each in the order GetPositions lists them, and answers with the last move
 * it saw, or with an empty Move when there is none.
 */
module AI {
  import opened Wrappers
  import opened Constants
  import opened Movement
  import opened Bitboards
  import opened Rules
  import RulesProperties
  import Board

  /** A candidate move: the index of the piece to move and the square it goes to. */
  datatype Choice = Choice(piece: nat, to: Position)

  /**
   * The loop of computeBestMove over the first n pieces: the last move of a piece of side s,
   * or None when none of them has one; an error in a safe-move computation ends the search.
   */
  function BestScan(b: BoardState, s: Side, n: nat): Result<Option<Choice>>
    requires WellFormed(b) && n <= |b.pieces|
  {
    if n == 0 then Ok(None)
    else
      var acc :- BestScan(b, s, n - 1);
      if b.pieces[n - 1].side == s then
        var safe :- SafeMoves(b, n - 1);
        var ps := Enumerate(safe);
        Ok(if |ps| > 0 then Some(Choice(n - 1, ps[|ps| - 1])) else acc)
      else
        Ok(acc)
  }

  /** The piece a Move built from a candidate refers to. */
  function PieceOf(c: Option<Choice>): Option<nat> {
    if c.Some? then Some(c.value.piece) else None
  }

  /** The square a Move built from a candidate refers to. */
  function TargetOf(c: Option<Choice>): Option<Position> {
    if c.Some? then Some(c.value.to) else None
  }

  /**
   * The search fails exactly as the mobility scan of IsKingInCheckmate does, and it finds a
   * move exactly when that scan says some piece of side s can move.
   */
  lemma {:induction false} BestScanAgrees(b: BoardState, s: Side, n: nat)
    requires WellFormed(b) && n <= |b.pieces|
    ensures BestScan(b, s, n).Ok? <==> MobileScan(b, s, n).Ok?
    ensures BestScan(b, s, n).Err? ==> BestScan(b, s, n) == Err(MobileScan(b, s, n).error)
    ensures BestScan(b, s, n).Ok? ==> (BestScan(b, s, n).value.Some? <==> MobileScan(b, s, n).value)
  {
    if n > 0 {
      BestScanAgrees(b, s, n - 1);
      AgreeStep(b, s, n - 1);
    }
  }

  /** The search and the mobility scan agree over the first n pieces. */
  predicate Agree(b: BoardState, s: Side, n: nat)
    requires WellFormed(b) && n <= |b.pieces|
  {
    (BestScan(b, s, n).Ok? <==> MobileScan(b, s, n).Ok?) &&
    (BestScan(b, s, n).Err? ==> BestScan(b, s, n) == Err(MobileScan(b, s, n).error)) &&
    (BestScan(b, s, n).Ok? ==> (BestScan(b, s, n).value.Some? <==> MobileScan(b, s, n).value))
  }

  /** Agreement over the first j pieces carries over to the first j + 1. */
  lemma AgreeStep(b: BoardState, s: Side, j: nat)
    requires WellFormed(b) && j < |b.pieces| && Agree(b, s, j)
    ensures Agree(b, s, j + 1)
  {
    BestScanStep(b, s, j);
    RulesProperties.MobileScanStep(b, s, j);
    if BestScan(b, s, j).Ok? && b.pieces[j].side == s {
      var safe := SafeMoves(b, j);
      if safe.Ok? {
        EnumerateNonEmpty(safe.value);
      }
    }
  }

  /** q is the last square GetPositions lists of the safe moves of piece j. */
  predicate LastListed(b: BoardState, j: nat, q: Position)
    requires WellFormed(b) && j < |b.pieces|
  {
    SafeMoves(b, j).Ok? && var ps := Enumerate(SafeMoves(b, j).value); |ps| > 0 && q == ps[|ps| - 1]
  }

  /** A move found among the first n pieces belongs to a piece of side s and is the last safe move it lists. */
  lemma {:induction false} BestScanChoice(b: BoardState, s: Side, n: nat)
    requires WellFormed(b) && n <= |b.pieces|
    ensures BestScan(b, s, n).Ok? && BestScan(b, s, n).value.Some? ==>
      var c := BestScan(b, s, n).value.value;
      c.piece < n && b.pieces[c.piece].side == s && LastListed(b, c.piece, c.to)
  {
    if n > 0 && BestScan(b, s, n).Ok? && BestScan(b, s, n).value.Some? {
      BestScanChoice(b, s, n - 1);
      BestScanFrom(b, s, n);
    }
  }

  /** A move found among the first n pieces is the one found among the first n - 1, or the last move of piece n - 1. */
  lemma BestScanFrom(b: BoardState, s: Side, n: nat)
    requires WellFormed(b) && 0 < n <= |b.pieces| && BestScan(b, s, n).Ok? && BestScan(b, s, n).value.Some?
    ensures var c := BestScan(b, s, n).value.value;
      BestScan(b, s, n - 1) == BestScan(b, s, n) ||
      (c.piece == n - 1 && b.pieces[c.piece].side == s && LastListed(b, c.piece, c.to))
  {
    if b.pieces[n - 1].side == s && SafeMoves(b, n - 1).Ok? && |Enumerate(SafeMoves(b, n - 1).value)| > 0 {
      BestScanFromLast(b, s, n);
    } else {
      BestScanFromPrefix(b, s, n);
    }
  }

  /** When piece n - 1 offers no move, the search over the first n pieces finds what the first n - 1 do. */
  lemma BestScanFromPrefix(b: BoardState, s: Side, n: nat)
    requires WellFormed(b) && 0 < n <= |b.pieces| && BestScan(b, s, n).Ok?
    requires !(b.pieces[n - 1].side == s && SafeMoves(b, n - 1).Ok? && |Enumerate(SafeMoves(b, n - 1).value)| > 0)
    ensures BestScan(b, s, n - 1) == BestScan(b, s, n)
  {
    BestScanStep(b, s, n - 1);
  }

  /** When piece n - 1 is of side s and lists safe moves, the search picks the last of them. */
  lemma BestScanFromLast(b: BoardState, s: Side, n: nat)
    requires WellFormed(b) && 0 < n <= |b.pieces| && BestScan(b, s, n).Ok?
    requires b.pieces[n - 1].side == s && SafeMoves(b, n - 1).Ok? && |Enumerate(SafeMoves(b, n - 1).value)| > 0
    ensures BestScan(b, s, n).value.Some?
    ensures var c := BestScan(b, s, n).value.value;
      c.piece == n - 1 && b.pieces[c.piece].side == s && LastListed(b, c.piece, c.to)
  {
    BestScanStep(b, s, n - 1);
  }

  /** No piece of side s after the one whose move is found among the first n has a safe move. */
  lemma {:induction false} BestScanLatest(b: BoardState, s: Side, n: nat, j: nat)
    requires WellFormed(b) && j < n <= |b.pieces|
    requires BestScan(b, s, n).Ok? && BestScan(b, s, n).value.Some? && BestScan(b, s, n).value.value.piece < j
    ensures !RulesProperties.Mobile(b, s, j)
  {
    if j == n - 1 {
      BestScanLastNotMobile(b, s, n);
    } else {
      BestScanPrefix(b, s, n);
      assert BestScan(b, s, n - 1) == BestScan(b, s, n);
      BestScanLatest(b, s, n - 1, j);
      assert !RulesProperties.Mobile(b, s, j);
    }
  }

  /** A move found among the first n pieces that is not of the last of them was found among the first n - 1. */
  lemma BestScanPrefix(b: BoardState, s: Side, n: nat)
    requires WellFormed(b) && 0 < n <= |b.pieces|
    requires BestScan(b, s, n).Ok? && BestScan(b, s, n).value.Some? && BestScan(b, s, n).value.value.piece < n - 1
    ensures BestScan(b, s, n - 1) == BestScan(b, s, n)
  {
    BestScanStep(b, s, n - 1);
  }

  /** When the move found among the first n pieces is not of the last of them, that piece has no safe move. */
  lemma BestScanLastNotMobile(b: BoardState, s: Side, n: nat)
    requires WellFormed(b) && 0 < n <= |b.pieces|
    requires BestScan(b, s, n).Ok? && BestScan(b, s, n).value.Some? && BestScan(b, s, n).value.value.piece < n - 1
    ensures !RulesProperties.Mobile(b, s, n - 1)
  {
    BestScanStep(b, s, n - 1);
    if b.pieces[n - 1].side == s && SafeMoves(b, n - 1).Ok? {
      EnumerateNonEmpty(SafeMoves(b, n - 1).value);
    }
  }

  /**
   * The move found among all pieces belongs to a piece of side s, is the last safe move that
   * piece lists, and no later piece of side s has a safe move.
   */
  lemma BestMoveIsLast(b: BoardState, s: Side)
    requires WellFormed(b) && BestScan(b, s, |b.pieces|).Ok? && BestScan(b, s, |b.pieces|).value.Some?
    ensures var c := BestScan(b, s, |b.pieces|).value.value;
      c.piece < |b.pieces| && b.pieces[c.piece].side == s && LastListed(b, c.piece, c.to) &&
      forall j :: c.piece < j < |b.pieces| ==> !RulesProperties.Mobile(b, s, j)
  {
    BestScanChoice(b, s, |b.pieces|);
    var c := BestScan(b, s, |b.pieces|).value.value;
    forall j | c.piece < j < |b.pieces| ensures !RulesProperties.Mobile(b, s, j) {
      BestScanLatest(b, s, |b.pieces|, j);
    }
  }

  /** The last listed safe move of a piece is a square of the board among its moves that IsMoveSafe accepts. */
  lemma LastListedIsSafe(b: BoardState, j: nat, q: Position)
    requires WellFormed(b) && j < |b.pieces| && LastListed(b, j, q)
    ensures RulesProperties.Mobile(b, b.pieces[j].side, j)
    ensures q.OnBoard() && Moves(b, j).Ok? && q in Moves(b, j).value
    ensures RulesProperties.SafeTo(b, b.pieces[j], q)
  {
    var ps := Enumerate(SafeMoves(b, j).value);
    EnumerateProperties(SafeMoves(b, j).value);
    EnumerateNonEmpty(SafeMoves(b, j).value);
    assert q in ps;
    RulesProperties.SafeMovesMeaning(b, j);
  }

  /** One step of the loop of computeBestMove. */
  lemma BestScanStep(b: BoardState, s: Side, j: nat)
    requires WellFormed(b) && j < |b.pieces|
    ensures BestScan(b, s, j).Err? ==> BestScan(b, s, j + 1) == BestScan(b, s, j)
    ensures BestScan(b, s, j).Ok? && b.pieces[j].side != s ==> BestScan(b, s, j + 1) == BestScan(b, s, j)
    ensures BestScan(b, s, j).Ok? && b.pieces[j].side == s && SafeMoves(b, j).Err? ==> BestScan(b, s, j + 1) == Err(SafeMoves(b, j).error)
    ensures BestScan(b, s, j).Ok? && b.pieces[j].side == s && SafeMoves(b, j).Ok? ==> (BestScan(b, s, j + 1) ==
      var ps := Enumerate(SafeMoves(b, j).value);
      Ok(if |ps| > 0 then Some(Choice(j, ps[|ps| - 1])) else BestScan(b, s, j).value))
  {
  }

  /** When side s is checkmated the search finds nothing, and computeBestMove answers an empty Move. */
  lemma CheckmatedHasNoMove(b: BoardState, s: Side)
    requires WellFormed(b) && Checkmate(b, s) == Ok(true)
    ensures BestScan(b, s, |b.pieces|) == Ok(None)
  {
    BestScanAgrees(b, s, |b.pieces|);
  }

  /** The step of that loop for a piece of side s whose safe moves are sq. */
  lemma BestScanExtend(b: BoardState, s: Side, j: nat, acc: Option<Choice>, sq: set<Position>)
    requires WellFormed(b) && j < |b.pieces| && BestScan(b, s, j) == Ok(acc)
    requires b.pieces[j].side == s && SafeMoves(b, j) == Ok(sq)
    ensures var ps := Enumerate(sq);
      BestScan(b, s, j + 1) == Ok(if |ps| > 0 then Some(Choice(j, ps[|ps| - 1])) else acc)
  {
  }

  /**
   * computeBestMove: the last safe move of the last piece of side s that has one, as a new Move
   * with score 0, or a Move to nowhere of no piece when side s cannot move.
   */
  method ComputeBestMove(side: Side, chessboard: Board.Chessboard) returns (r: Result<Move>)
    requires chessboard.Valid()
    ensures var spec := BestScan(chessboard.State(), side, |chessboard.activePieces|);
      (r.Ok? <==> spec.Ok?) && (spec.Err? ==> r == Err(spec.error)) &&
      (r.Ok? ==> (fresh(r.value) && r.value.pieceToMove == PieceOf(spec.value) &&
        r.value.toPosition == TargetOf(spec.value) && r.value.score == 0))
  {
    ghost var b := chessboard.State();
    ghost var acc: Option<Choice> := None;
    var moves: seq<Move> := [];
    var bestMove := new Move(None, None);
    var j := 0;
    while j < |chessboard.activePieces|
      invariant 0 <= j <= |chessboard.activePieces| && chessboard.Valid() && chessboard.State() == b
      invariant BestScan(b, side, j) == Ok(acc) && fresh(bestMove)
      invariant bestMove.pieceToMove == PieceOf(acc) && bestMove.toPosition == TargetOf(acc)
      invariant bestMove.score == 0
    {
      var err;
      err, moves, bestMove, acc := ScanPiece(side, chessboard, j, acc, moves, bestMove);
      if err.Some? {
        BestScanErrPersists(b, side, j + 1, |chessboard.activePieces|);
        return Err(err.value);
      }
      j := j + 1;
    }
    r := Ok(bestMove);
  }

  /**
   * The body of the outer loop of computeBestMove for piece j: a piece of side s appends a Move
   * for each of its safe moves, the last of which becomes the best move.
   */
  method ScanPiece(side: Side, chessboard: Board.Chessboard, j: nat, ghost acc: Option<Choice>, moves: seq<Move>, best: Move)
    returns (err: Option<Error>, moves': seq<Move>, bestMove: Move, ghost acc': Option<Choice>)
    requires chessboard.Valid() && j < |chessboard.activePieces|
    requires BestScan(chessboard.State(), side, j) == Ok(acc)
    ensures var next := BestScan(chessboard.State(), side, j + 1);
      (err.Some? <==> next.Err?) && (err.Some? ==> next == Err(err.value)) && (err.None? ==> next == Ok(acc'))
    ensures (bestMove == best && acc' == acc) ||
      (fresh(bestMove) && bestMove.pieceToMove == PieceOf(acc') && bestMove.toPosition == TargetOf(acc') && bestMove.score == 0)
  {
    ghost var b := chessboard.State();
    moves', bestMove, acc' := moves, best, acc;
    if chessboard.activePieces[j].side != side {
      BestScanStep(b, side, j);
    } else {
      var safe := chessboard.GetSafeMovesForCurrentPosition(j);
      if safe.Err? {
        BestScanStep(b, side, j);
        return Some(safe.error), moves', bestMove, acc';
      }
      var positions := safe.value.GetPositions();
      BestScanExtend(b, side, j, acc, safe.value.Squares());
      moves', bestMove := AppendMoves(j, positions, moves, best);
      if |positions| > 0 {
        acc' := Some(Choice(j, positions[|positions| - 1]));
      }
    }
    err := None;
  }

  /**
   * The inner loop of computeBestMove: a new Move of piece j for each listed square, appended to
   * moves; the last of them becomes the best move, which stays as it was when none is listed.
   */
  method AppendMoves(j: nat, positions: seq<Position>, moves: seq<Move>, best: Move) returns (moves': seq<Move>, bestMove: Move)
    ensures |moves'| == |moves| + |positions| && moves'[..|moves|] == moves
    ensures |positions| == 0 ==> bestMove == best
    ensures |positions| > 0 ==> (fresh(bestMove) && bestMove.pieceToMove == Some(j) &&
      bestMove.toPosition == Some(positions[|positions| - 1]) && bestMove.score == 0)
  {
    moves', bestMove := moves, best;
    var k := 0;
    while k < |positions|
      invariant 0 <= k <= |positions| && |moves'| == |moves| + k && moves'[..|moves|] == moves
      invariant k == 0 ==> bestMove == best
      invariant k > 0 ==> (fresh(bestMove) && bestMove.pieceToMove == Some(j) &&
        bestMove.toPosition == Some(positions[k - 1]) && bestMove.score == 0)
    {
      var newMove := new Move(Some(j), Some(positions[k]));
      moves' := moves' + [newMove];
      bestMove := newMove;
      k := k + 1;
    }
  }

  /** An error of the search among the first j pieces is its answer for the first n. */
  lemma {:induction false} BestScanErrPersists(b: BoardState, s: Side, j: nat, n: nat)
    requires WellFormed(b) && j <= n <= |b.pieces| && BestScan(b, s, j).Err?
    ensures BestScan(b, s, n) == BestScan(b, s, j)
    decreases n
  {
    if n > j {
      BestScanErrPersists(b, s, j, n - 1);
    }
  }
}
