/**
 * The bitboard: an 8x8 set of squares stored as eight bytes, one per row, the most significant
 * bit of a byte being column 1 (Assets/Scripts/Bitboard.cs).
 */
module Bitboards {
  import opened Movement

  /** The bit of column c (1..8) within its row byte: 2^(7 - (c - 1)). */
  function Mask(c: int): (m: bv8)
    requires Min <= c <= Max
    ensures m != 0
  {
    match c
    case 1 => 0x80
    case 2 => 0x40
    case 3 => 0x20
    case 4 => 0x10
    case 5 => 0x08
    case 6 => 0x04
    case 7 => 0x02
    case _ => 0x01
  }

  /** Masks of different columns share no bit. */
  lemma MaskDistinct(c: int, d: int)
    requires Min <= c <= Max && Min <= d <= Max
    ensures Mask(c) & Mask(d) != 0 <==> c == d
  {
  }

  /** True when the bit of column c is set in row byte x. */
  predicate RowHas(x: bv8, c: int)
    requires Min <= c <= Max
  {
    x & Mask(c) != 0
  }

  /** The eight row bytes of a bitboard. */
  type Rows = s: seq<bv8> | |s| == 8 witness [0, 0, 0, 0, 0, 0, 0, 0]

  const EmptyRows: Rows := [0, 0, 0, 0, 0, 0, 0, 0]

  /** The 64 squares of the board. */
  function AllSquares(): set<Position> {
    set c, r | Min <= c <= Max && Min <= r <= Max :: Position(c, r)
  }

  /** The squares whose bit is set. */
  function SquaresOf(rows: Rows): set<Position> {
    set c, r | Min <= c <= Max && Min <= r <= Max && RowHas(rows[r - 1], c) :: Position(c, r)
  }

  lemma InSquaresOf(rows: Rows, p: Position)
    ensures p in SquaresOf(rows) <==> p.OnBoard() && RowHas(rows[p.row - 1], p.column)
  {
    if p.OnBoard() && RowHas(rows[p.row - 1], p.column) {
      assert Position(p.column, p.row) in SquaresOf(rows);
    }
  }

  lemma InAllSquares(p: Position)
    ensures p in AllSquares() <==> p.OnBoard()
  {
    if p.OnBoard() {
      assert Position(p.column, p.row) in AllSquares();
    }
  }

  /** A set of squares is the content of at most one bitboard. */
  lemma {:induction false} SquaresOfInjective(a: Rows, b: Rows)
    requires SquaresOf(a) == SquaresOf(b)
    ensures a == b
  {
    forall r | 0 <= r < 8 ensures a[r] == b[r] {
      forall c | Min <= c <= Max ensures RowHas(a[r], c) == RowHas(b[r], c) {
        InSquaresOf(a, Position(c, r + 1));
        InSquaresOf(b, Position(c, r + 1));
      }
      RowExtensional(a[r], b[r]);
    }
  }

  /** Two row bytes that agree on every column are equal. */
  lemma RowExtensional(x: bv8, y: bv8)
    requires forall c | Min <= c <= Max :: RowHas(x, c) == RowHas(y, c)
    ensures x == y
  {
    assert RowHas(x, 1) == RowHas(y, 1);
    assert RowHas(x, 2) == RowHas(y, 2);
    assert RowHas(x, 3) == RowHas(y, 3);
    assert RowHas(x, 4) == RowHas(y, 4);
    assert RowHas(x, 5) == RowHas(y, 5);
    assert RowHas(x, 6) == RowHas(y, 6);
    assert RowHas(x, 7) == RowHas(y, 7);
    assert RowHas(x, 8) == RowHas(y, 8);
  }

  lemma {:induction false} EmptyRowsEmpty()
    ensures SquaresOf(EmptyRows) == {}
  {
    forall p ensures p !in SquaresOf(EmptyRows) {
      InSquaresOf(EmptyRows, p);
    }
  }

  /** The set with membership of one square reversed. */
  function Toggle(s: set<Position>, p: Position): (r: set<Position>)
    ensures p in r <==> p !in s
    ensures forall q :: q != p ==> (q in r <==> q in s)
  {
    if p in s then s - {p} else s + {p}
  }

  /** The rows after the bit of square p is flipped. */
  function FlippedRows(rows: Rows, p: Position): Rows
    requires p.OnBoard()
  {
    rows[p.row - 1 := FlipByte(rows[p.row - 1], p.column)]
  }

  /** A row byte with the bit of column c flipped. */
  function FlipByte(x: bv8, c: int): bv8
    requires Min <= c <= Max
  {
    x ^ Mask(c)
  }

  /** Flipping a bit toggles exactly that square. */
  lemma {:induction false} FlippedRowsToggle(rows: Rows, p: Position)
    requires p.OnBoard()
    ensures SquaresOf(FlippedRows(rows, p)) == Toggle(SquaresOf(rows), p)
  {
    var after := FlippedRows(rows, p);
    forall q ensures q in SquaresOf(after) <==> q in Toggle(SquaresOf(rows), p) {
      InSquaresOf(rows, q);
      InSquaresOf(after, q);
      if q.OnBoard() && q.row == p.row {
        MaskDistinct(q.column, p.column);
      }
    }
  }

  /** Flipping the same square twice restores the rows. */
  lemma {:induction false} FlipTwiceRestores(rows: Rows, p: Position)
    requires p.OnBoard()
    ensures FlippedRows(FlippedRows(rows, p), p) == rows
  {
    var x := rows[p.row - 1];
    assert (x ^ Mask(p.column)) ^ Mask(p.column) == x;
  }

  /** The byte-wise complement of a bitboard. */
  function ComplementRows(rows: Rows): Rows {
    seq(8, i requires 0 <= i < 8 => !rows[i])
  }

  lemma {:induction false} ComplementRowsSquares(rows: Rows)
    ensures SquaresOf(ComplementRows(rows)) == AllSquares() - SquaresOf(rows)
  {
    var after := ComplementRows(rows);
    forall q ensures q in SquaresOf(after) <==> q in AllSquares() - SquaresOf(rows) {
      InSquaresOf(rows, q);
      InSquaresOf(after, q);
      InAllSquares(q);
    }
  }

  /** The complement is its own inverse. */
  lemma {:induction false} ComplementTwice(rows: Rows)
    ensures ComplementRows(ComplementRows(rows)) == rows
  {
    var back := ComplementRows(ComplementRows(rows));
    forall i | 0 <= i < 8 ensures back[i] == rows[i] {
      assert !!rows[i] == rows[i];
    }
  }

  /** The byte-wise (a XOR b) AND a, that is a AND NOT b. */
  function DifferenceRows(a: Rows, b: Rows): Rows {
    seq(8, i requires 0 <= i < 8 => (a[i] ^ b[i]) & a[i])
  }

  lemma {:induction false} DifferenceRowsSquares(a: Rows, b: Rows)
    ensures SquaresOf(DifferenceRows(a, b)) == SquaresOf(a) - SquaresOf(b)
  {
    var after := DifferenceRows(a, b);
    forall q ensures q in SquaresOf(after) <==> q in SquaresOf(a) - SquaresOf(b) {
      InSquaresOf(a, q);
      InSquaresOf(b, q);
      InSquaresOf(after, q);
      if q.OnBoard() {
        DifferenceBit(a[q.row - 1], b[q.row - 1], q.column);
      }
    }
  }

  /** With nothing to take away, the difference is an exact copy. */
  lemma {:induction false} DifferenceWithEmpty(a: Rows)
    ensures DifferenceRows(a, EmptyRows) == a
  {
    var d := DifferenceRows(a, EmptyRows);
    forall i | 0 <= i < 8 ensures d[i] == a[i] {
      assert (a[i] ^ 0) & a[i] == a[i];
    }
  }

  /** Row-major rank of a square: rows ascending, then columns ascending. */
  function Index(p: Position): int {
    (p.row - 1) * 8 + (p.column - 1)
  }

  /** The one-element list [(c, r)] when (c, r) is in s, otherwise the empty list. */
  function Here(s: set<Position>, c: int, r: int): seq<Position> {
    if Position(c, r) in s then [Position(c, r)] else []
  }

  /** The squares of s on the board strictly before (c, r) in row-major order. */
  function EnumerateBefore(s: set<Position>, c: int, r: int): seq<Position>
    requires Min <= c <= Max && Min <= r <= Max + 1 && (r == Max + 1 ==> c == Min)
    decreases r, c
  {
    if c == Min && r == Min then []
    else if c == Min then EnumerateBefore(s, Max, r - 1) + Here(s, Max, r - 1)
    else EnumerateBefore(s, c - 1, r) + Here(s, c - 1, r)
  }

  /** Listing the squares of s up to and including (c, r) appends (c, r) when s holds it. */
  lemma EnumerateStep(s: set<Position>, c: int, r: int)
    requires Min <= c <= Max && Min <= r <= Max
    ensures c < Max ==> EnumerateBefore(s, c + 1, r) == EnumerateBefore(s, c, r) + Here(s, c, r)
    ensures c == Max ==> EnumerateBefore(s, Min, r + 1) == EnumerateBefore(s, c, r) + Here(s, c, r)
  {
  }

  /** The squares of s on the board in row-major order, the order GetPositions lists them in. */
  function Enumerate(s: set<Position>): seq<Position> {
    EnumerateBefore(s, Min, Max + 1)
  }

  predicate StrictlyOrdered(ps: seq<Position>) {
    forall i, j :: 0 <= i < j < |ps| ==> Index(ps[i]) < Index(ps[j])
  }

  lemma {:induction false} EnumerateBeforeProperties(s: set<Position>, c: int, r: int)
    requires Min <= c <= Max && Min <= r <= Max + 1 && (r == Max + 1 ==> c == Min)
    ensures StrictlyOrdered(EnumerateBefore(s, c, r))
    ensures forall p :: p in EnumerateBefore(s, c, r) <==>
      p in s && p.OnBoard() && Index(p) < Index(Position(c, r))
    decreases r, c
  {
    if !(c == Min && r == Min) {
      var pc, pr := if c == Min then Max else c - 1, if c == Min then r - 1 else r;
      EnumerateBeforeProperties(s, pc, pr);
      assert Index(Position(pc, pr)) + 1 == Index(Position(c, r));
      var prev := EnumerateBefore(s, pc, pr);
      assert EnumerateBefore(s, c, r) == prev + Here(s, pc, pr);
      forall p: Position ensures p in EnumerateBefore(s, c, r) <==>
        p in s && p.OnBoard() && Index(p) < Index(Position(c, r))
      {
        if p.OnBoard() && Index(p) == Index(Position(pc, pr)) {
          assert p == Position(pc, pr);
        }
      }
    }
  }

  /** Enumerate lists exactly the on-board squares of s, each once, in strictly increasing row-major order. */
  lemma {:induction false} EnumerateProperties(s: set<Position>)
    ensures StrictlyOrdered(Enumerate(s))
    ensures forall p :: p in Enumerate(s) <==> p in s && p.OnBoard()
  {
    EnumerateBeforeProperties(s, Min, Max + 1);
  }

  /** A set holds a square of the board. */
  predicate HasSquare(s: set<Position>) {
    exists q :: q in s && q.OnBoard()
  }

  /** GetPositions of a bitboard is non-empty exactly when the bitboard marks a square. */
  lemma EnumerateNonEmpty(s: set<Position>)
    ensures |Enumerate(s)| > 0 <==> HasSquare(s)
  {
    EnumerateProperties(s);
    if |Enumerate(s)| > 0 {
      assert Enumerate(s)[0] in Enumerate(s);
    }
  }

  /** Sign of an integer; the direction component used by the ray walk. */
  function Sign(x: int): (r: int)
    ensures r == 0 <==> x == 0
    ensures r * x >= 0 && -1 <= r <= 1
  {
    if x > 0 then 1 else if x < 0 then -1 else 0
  }

  function Step(p: Position, dc: int, dr: int): Position {
    Position(p.column + dc, p.row + dr)
  }

  /** Clear consecutive squares of cur from p along (dc, dr) until a missing square or the edge. */
  function Walk(cur: set<Position>, p: Position, dc: int, dr: int): (r: set<Position>)
    ensures r <= cur
    decreases |cur|
  {
    if p.OnBoard() && p in cur then Walk(cur - {p}, Step(p, dc, dr), dc, dr) else cur
  }

  /** The walk for one blocking square b, seen from the moving piece at origin. */
  function BlockerWalk(cur: set<Position>, b: Position, origin: Position, includeBlocker: bool): (r: set<Position>)
    ensures r <= cur
  {
    var dc, dr := Sign(b.column - origin.column), Sign(b.row - origin.row);
    Walk(cur, if includeBlocker then Step(b, dc, dr) else b, dc, dr)
  }

  /** The walks of all blockers in order, each applied to what the previous ones left. */
  function Walks(cur: set<Position>, blockers: seq<Position>, origin: Position, includeBlocker: bool): (r: set<Position>)
    ensures r <= cur
    decreases |blockers|
  {
    if blockers == [] then cur
    else Walks(BlockerWalk(cur, blockers[0], origin, includeBlocker), blockers[1..], origin, includeBlocker)
  }

  /** What ComputeRayIntersections leaves of marked squares s given obstructions o. */
  function RayPass(s: set<Position>, o: set<Position>, origin: Position, includeBlocker: bool): (r: set<Position>)
    ensures r <= s
  {
    Walks(s, Enumerate(s * o), origin, includeBlocker)
  }

  /** A bitboard object: eight row bytes. */
  class Bitboard {
    var bits: array<bv8>

    ghost predicate Valid()
      reads this
    {
      bits.Length == 8
    }

    ghost function Squares(): set<Position>
      reads this, bits
      requires Valid()
    {
      SquaresOf(bits[..])
    }

    constructor ()
      ensures Valid() && fresh(bits)
      ensures bits[..] == EmptyRows && Squares() == {}
    {
      bits := new bv8[8](_ => 0);
      new;
      assert bits[..] == EmptyRows;
      EmptyRowsEmpty();
    }

    /** The bit of square p, non-zero iff p is marked. */
    function ValueAtPosition(p: Position): (v: int)
      reads this, bits
      requires Valid() && p.OnBoard()
      ensures v != 0 <==> p in Squares()
      ensures v == 0 || v == Mask(p.column) as int
    {
      var x := bits[p.row - 1];
      InSquaresOf(bits[..], p);
      assert bits[..][p.row - 1] == x;
      MaskedValue(x, p.column);
      (x & Mask(p.column)) as int
    }

    /** Flip the bit of square p and return its previous value. */
    method FlipPosition(p: Position) returns (v: int)
      requires Valid() && p.OnBoard()
      modifies bits
      ensures Valid()
      ensures bits[..] == FlippedRows(old(bits[..]), p)
      ensures Squares() == Toggle(old(Squares()), p)
      ensures v != 0 <==> p in old(Squares())
    {
      ghost var rows := bits[..];
      v := ValueAtPosition(p);
      FlippedRowsToggle(rows, p);
      bits[p.row - 1] := FlipByte(bits[p.row - 1], p.column);
      assert bits[..] == FlippedRows(rows, p);
    }

    /** The marked squares in row-major order. */
    method GetPositions() returns (ps: seq<Position>)
      requires Valid()
      ensures ps == Enumerate(Squares())
    {
      ghost var s := Squares();
      ps := [];
      var row := 0;
      while row < bits.Length
        invariant 0 <= row <= 8
        invariant ps == EnumerateBefore(s, Min, row + 1)
      {
        ps := AppendRow(row, ps, s);
        row := row + 1;
      }
    }

    /** The inner loop of GetPositions: appends the marked squares of one row, left to right. */
    method AppendRow(row: int, ps: seq<Position>, ghost s: set<Position>) returns (ps': seq<Position>)
      requires Valid() && s == Squares() && 0 <= row < 8
      requires ps == EnumerateBefore(s, Min, row + 1)
      ensures ps' == EnumerateBefore(s, Min, row + 2)
    {
      ps' := ps;
      var column := Min;
      while column <= Max
        invariant Min <= column <= Max + 1
        invariant column <= Max ==> ps' == EnumerateBefore(s, column, row + 1)
        invariant column > Max ==> ps' == EnumerateBefore(s, Min, row + 2)
      {
        InSquaresOf(bits[..], Position(column, row + 1));
        EnumerateStep(s, column, row + 1);
        if bits[row] & Mask(column) > 0 {
          assert Here(s, column, row + 1) == [Position(column, row + 1)];
          ps' := ps' + [Position(column, row + 1)];
        } else {
          assert Here(s, column, row + 1) == [];
        }
        column := column + 1;
      }
    }

    /** A new bitboard holding the complement of b; the receiver plays no part. */
    method ComplementBitboard(b: Bitboard) returns (nb: Bitboard)
      requires b.Valid()
      ensures fresh(nb) && fresh(nb.bits) && nb.Valid()
      ensures nb.bits[..] == ComplementRows(b.bits[..])
      ensures nb.Squares() == AllSquares() - b.Squares()
    {
      nb := new Bitboard();
      var row := 0;
      while row < 8
        invariant 0 <= row <= 8
        invariant nb.Valid() && fresh(nb.bits)
        invariant forall i :: 0 <= i < row ==> nb.bits[i] == !b.bits[i]
      {
        nb.bits[row] := !b.bits[row];
        row := row + 1;
      }
      assert nb.bits[..] == ComplementRows(b.bits[..]);
      ComplementRowsSquares(b.bits[..]);
    }

    /** A new bitboard holding (this XOR o) AND this: the squares of this not in o. */
    method IntersectBitboard(o: Bitboard) returns (nb: Bitboard)
      requires Valid() && o.Valid()
      ensures fresh(nb) && fresh(nb.bits) && nb.Valid()
      ensures nb.bits[..] == DifferenceRows(bits[..], o.bits[..])
      ensures nb.Squares() == Squares() - o.Squares()
    {
      nb := new Bitboard();
      var row := 0;
      while row < 8
        invariant 0 <= row <= 8
        invariant nb.Valid() && fresh(nb.bits)
        invariant forall i :: 0 <= i < row ==> nb.bits[i] == (bits[i] ^ o.bits[i]) & bits[i]
      {
        nb.bits[row] := (bits[row] ^ o.bits[row]) & bits[row];
        row := row + 1;
      }
      assert nb.bits[..] == DifferenceRows(bits[..], o.bits[..]);
      DifferenceRowsSquares(bits[..], o.bits[..]);
    }

    /**
     * A new bitboard: this one with every ray from origin cut at the squares where it meets o.
     * Neither this nor o is changed (the method modifies nothing that existed before).
     */
    method ComputeRayIntersections(o: Bitboard, origin: Position, includeBlocker: bool) returns (nb: Bitboard)
      requires Valid() && o.Valid()
      ensures fresh(nb) && fresh(nb.bits) && nb.Valid()
      ensures nb.Squares() == RayPass(Squares(), o.Squares(), origin, includeBlocker)
    {
      ghost var s, obs := Squares(), o.Squares();
      nb := new Bitboard();
      var diff := IntersectBitboard(o);
      var ib := ComplementBitboard(diff);
      ghost var d0 := ib.bits[..];
      CopyAndMask(nb, ib);
      assert nb.bits[..] == bits[..];
      BlockerRows(bits[..], o.bits[..], ib.bits[..]);
      var blockers := ib.GetPositions();
      assert blockers == Enumerate(s * obs);
      WalkBlockers(nb, blockers, origin, includeBlocker);
    }


  /** The row loop of ComputeRayIntersections: copy this into nb and mask ib with it. */
    method CopyAndMask(nb: Bitboard, ib: Bitboard)
      requires Valid() && nb.Valid() && ib.Valid()
      requires nb.bits != ib.bits && nb.bits != bits && ib.bits != bits
      modifies nb.bits, ib.bits
      ensures nb.bits[..] == bits[..]
      ensures forall i :: 0 <= i < 8 ==> ib.bits[i] == old(ib.bits[i]) & bits[i]
    {
      var row := 0;
      while row < 8
        invariant 0 <= row <= 8
        invariant forall i :: 0 <= i < row ==> nb.bits[i] == bits[i] && ib.bits[i] == old(ib.bits[i]) & bits[i]
        invariant forall i :: row <= i < 8 ==> ib.bits[i] == old(ib.bits[i])
      {
        nb.bits[row] := bits[row];
        ib.bits[row] := ib.bits[row] & nb.bits[row];
        row := row + 1;
      }
    }
  }

  /** The loop of ComputeRayIntersections over the blocking squares, clearing nb in place. */
  method WalkBlockers(nb: Bitboard, blockers: seq<Position>, origin: Position, includeBlocker: bool)
    requires nb.Valid()
    modifies nb.bits
    ensures nb.Valid()
    ensures nb.Squares() == Walks(old(nb.Squares()), blockers, origin, includeBlocker)
  {
    var k := 0;
    while k < |blockers|
      invariant 0 <= k <= |blockers|
      invariant nb.Valid()
      invariant Walks(nb.Squares(), blockers[k..], origin, includeBlocker)
        == Walks(old(nb.Squares()), blockers, origin, includeBlocker)
    {
      var b := blockers[k];
      var dc, dr := Sign(b.column - origin.column), Sign(b.row - origin.row);
      var clear := b;
      if includeBlocker {
        clear := Step(clear, dc, dr);
      }
      assert blockers[k..][1..] == blockers[k + 1..];
      ClearRay(nb, clear, dc, dr);
      k := k + 1;
    }
  }

  /** The ray walk of ComputeRayIntersections from square p along (dc, dr), clearing nb in place. */
  method ClearRay(nb: Bitboard, p: Position, dc: int, dr: int)
    requires nb.Valid()
    modifies nb.bits
    ensures nb.Valid()
    ensures nb.Squares() == Walk(old(nb.Squares()), p, dc, dr)
  {
    var clear := p;
    while clear.OnBoard()
      invariant nb.Valid()
      invariant Walk(nb.Squares(), clear, dc, dr) == Walk(old(nb.Squares()), p, dc, dr)
      decreases |nb.Squares()|
    {
      var v := nb.ValueAtPosition(clear);
      if v > 0 {
        var _ := nb.FlipPosition(clear);
      } else {
        break;
      }
      clear := Step(clear, dc, dr);
    }
  }

  lemma DifferenceBit(x: bv8, y: bv8, c: int)
    requires Min <= c <= Max
    ensures RowHas((x ^ y) & x, c) <==> RowHas(x, c) && !RowHas(y, c)
  {
  }

  /** The bit extracted by a mask is 0 or the mask itself. */
  /** The bit of column c of a row byte, read as a number: 0 when clear, the column's mask when set. */
  lemma MaskedValue(x: bv8, c: int)
    requires Min <= c <= Max
    ensures (x & Mask(c)) as int != 0 <==> RowHas(x, c)
    ensures (x & Mask(c)) as int == 0 || (x & Mask(c)) as int == Mask(c) as int
  {
    MaskSingleBit(x, c);
  }

  lemma MaskSingleBit(x: bv8, c: int)
    requires Min <= c <= Max
    ensures x & Mask(c) == 0 || x & Mask(c) == Mask(c)
  {
  }

  /** NOT((a XOR b) AND a) AND a is a AND b: the obstructed marked squares. */
  lemma {:induction false} BlockerRows(a: Rows, b: Rows, x: Rows)
    requires forall i :: 0 <= i < 8 ==> x[i] == ComplementRows(DifferenceRows(a, b))[i] & a[i]
    ensures SquaresOf(x) == SquaresOf(a) * SquaresOf(b)
  {
    forall q ensures q in SquaresOf(x) <==> q in SquaresOf(a) * SquaresOf(b) {
      InSquaresOf(a, q);
      InSquaresOf(b, q);
      InSquaresOf(x, q);
    }
  }
}
