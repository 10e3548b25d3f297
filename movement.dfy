/** Board coordinates and the (piece, target, score) record of a move (Assets/Scripts/Movement.cs). */
module Movement {
  import opened Wrappers

  /** The lowest and highest row and column number of a square (Position.min and Position.max). */
  const Min := 1
  const Max := 8

  /**
   * A coordinate pair.  Columns and rows are unbounded, because the ray walk of a bitboard
   * steps a position off the board before it stops.
   */
  datatype Position = Position(column: int, row: int) {

    predicate OnBoard() {
      Min <= column <= Max && Min <= row <= Max
    }

    /** The position with its row replaced. */
    function SetRow(newRow: int): (r: Position)
      ensures r.row == newRow && r.column == column
    {
      this.(row := newRow)
    }

    /** The position with its column replaced. */
    function SetColumn(newColumn: int): (r: Position)
      ensures r.column == newColumn && r.row == row
    {
      this.(column := newColumn)
    }

    /** Equality against a possibly missing (null) position: same column and same row. */
    function Equals(other: Option<Position>): (r: bool)
      ensures r <==> other == Some(this)
    {
      other.Some? && column == other.value.column && row == other.value.row
    }

    /** The hash code (19 + row) * 19 + column; for a column in 0..18 it gives back row and column. */
    function HashCode(): (h: int)
      ensures 0 <= column < 19 ==> h / 19 == 19 + row && h % 19 == column
    {
      var h := (19 + row) * 19 + column;
      assert 0 <= column < 19 ==> h == 19 * (19 + row) + column;
      h
    }

    /** The column letter, counted from 'A' for column 1, followed by the decimal row number. */
    function ToString(): (s: string)
      requires 0 <= 64 + column < 0xD800
      ensures |s| >= 2 && s[0] == (64 + column) as char
      ensures s[1..] == IntToString(row)
    {
      [(64 + column) as char] + IntToString(row)
    }
  }

  /** The decimal digits of a natural number, most significant first, without leading zeros. */
  function NatToString(n: nat): (s: string)
    ensures |s| >= 1
    ensures forall i :: 0 <= i < |s| ==> '0' <= s[i] <= '9'
    ensures s[0] == '0' <==> n == 0
    decreases n
  {
    if n < 10 then ['0' + n as char] else NatToString(n / 10) + ['0' + (n % 10) as char]
  }

  /** The decimal form of an integer, with a leading '-' when it is negative. */
  function IntToString(n: int): (s: string)
    ensures |s| >= 1
    ensures n >= 0 <==> s[0] != '-'
  {
    if n < 0 then "-" + NatToString(-n) else NatToString(n)
  }

  /** The number a string of decimal digits denotes, most significant digit first. */
  function DecimalValue(s: string): nat
    requires forall i :: 0 <= i < |s| ==> '0' <= s[i] <= '9'
  {
    if |s| == 0 then 0 else DecimalValue(s[..|s| - 1]) * 10 + (s[|s| - 1] as int - '0' as int)
  }

  /** The digits of NatToString read back as the number. */
  lemma {:induction false} NatToStringValue(n: nat)
    ensures DecimalValue(NatToString(n)) == n
    decreases n
  {
    if n >= 10 {
      var s := NatToString(n);
      assert s[..|s| - 1] == NatToString(n / 10);
      NatToStringValue(n / 10);
    }
  }

  /** IntToString reads back as the integer: its digits after any '-' denote the magnitude. */
  lemma {:induction false} IntToStringValue(n: int)
    ensures n < 0 ==> IntToString(n)[0] == '-' && DecimalValue(IntToString(n)[1..]) == -n
    ensures n >= 0 ==> DecimalValue(IntToString(n)) == n
  {
    var s := IntToString(n);
    if n < 0 {
      var digits := NatToString(-n);
      assert s == "-" + digits;
      assert s[1..] == digits;
      NatToStringValue(-n);
    } else {
      NatToStringValue(n);
    }
  }

  /** Equality of positions is reflexive and symmetric. */
  lemma EqualsIsEquivalence(p: Position, q: Position)
    ensures p.Equals(Some(p))
    ensures p.Equals(Some(q)) == q.Equals(Some(p))
    ensures !p.Equals(None)
  {
  }

  /** Equal positions hash equally, and on the board the hash code tells squares apart. */
  lemma {:induction false} HashCodeInjectiveOnBoard(p: Position, q: Position)
    requires p.OnBoard() && q.OnBoard()
    ensures p.HashCode() == q.HashCode() <==> p == q
  {
    if p.HashCode() == q.HashCode() {
      // The column lies in 1..8 < 19, so the row is fixed by the quotient by 19.
      assert (19 + p.row) * 19 == 19 * p.row + 361;
      assert (19 + q.row) * 19 == 19 * q.row + 361;
      assert 19 * (p.row - q.row) == q.column - p.column;
      assert -7 <= q.column - p.column <= 7;
    }
  }

  /** On the board the text form is a letter A..H followed by a digit 1..8, and it tells squares apart. */
  lemma {:induction false} ToStringOnBoard(p: Position, q: Position)
    requires p.OnBoard() && q.OnBoard()
    ensures p.ToString() == [('A' as int + p.column - 1) as char, ('0' as int + p.row) as char]
    ensures p.ToString() == q.ToString() <==> p == q
  {
    assert p.ToString() == [(64 + p.column) as char] + ['0' + p.row as char];
    assert q.ToString() == [(64 + q.column) as char] + ['0' + q.row as char];
    if p.ToString() == q.ToString() {
      assert p.ToString()[0] == q.ToString()[0];
      assert p.ToString()[1] == q.ToString()[1];
    }
  }

  /** Square A1 is column 1, row 1. */
  lemma ToStringA1()
    ensures Position(1, 1).ToString() == "A1"
  {
    assert IntToString(1) == "1";
  }

  /**
   * A candidate move: the piece to move (its index in the board's list of active pieces,
   * None for a null piece), the target square (None for null) and a score.
   */
  class Move {
    var pieceToMove: Option<nat>
    var toPosition: Option<Position>
    var score: int

    constructor (piece: Option<nat>, moveToPosition: Option<Position>)
      ensures pieceToMove == piece && toPosition == moveToPosition && score == 0
    {
      pieceToMove := piece;
      toPosition := moveToPosition;
      score := 0;
    }

    function GetPosition(): Option<Position>
      reads this
    {
      toPosition
    }

    function GetPiece(): Option<nat>
      reads this
    {
      pieceToMove
    }

    function GetScore(): int
      reads this
    {
      score
    }

    method SetScore(newScore: int)
      modifies this
      ensures GetScore() == newScore
      ensures GetPiece() == old(GetPiece()) && GetPosition() == old(GetPosition())
    {
      score := newScore;
    }
  }
}
