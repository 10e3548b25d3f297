/**
 * What ComputeRayIntersections computes, stated geometrically: for move sets made of straight
 * rays from the moving piece (rook, bishop and queen shapes) it cuts each ray at the first
 * obstruction; for move sets with no two squares in a row along a direction from the piece
 * (king and knight shapes) it removes the obstructed squares one by one.
 */
module Rays {
  import opened Movement
  import opened Bitboards

  function Abs(x: int): nat {
    if x < 0 then -x else x
  }

  /** Chebyshev distance: the number of king steps from o to q, and the index of q on its ray. */
  function Dist(o: Position, q: Position): nat {
    var a, b := Abs(q.column - o.column), Abs(q.row - o.row);
    if a >= b then a else b
  }

  /** The per-axis sign of q - o: the direction the ray walk takes from a blocker at q. */
  function DirC(o: Position, q: Position): int {
    Sign(q.column - o.column)
  }

  function DirR(o: Position, q: Position): int {
    Sign(q.row - o.row)
  }

  /** One of the eight king-step directions. */
  predicate Unit(dc: int, dr: int) {
    -1 <= dc <= 1 && -1 <= dr <= 1 && (dc != 0 || dr != 0)
  }

  /** k times the sign u, written without multiplication. */
  function Scale(u: int, k: int): int {
    if u > 0 then k else if u < 0 then -k else 0
  }

  /** The k-th square from o in direction (dc, dr). */
  function Ray(o: Position, dc: int, dr: int, k: int): Position {
    Position(o.column + Scale(dc, k), o.row + Scale(dr, k))
  }

  /** q lies on a rank, file or diagonal through o, and is not o. */
  predicate Aligned(o: Position, q: Position) {
    q != o && (q.column == o.column || q.row == o.row || Abs(q.column - o.column) == Abs(q.row - o.row))
  }

  lemma AlignedIsRay(o: Position, q: Position)
    requires Aligned(o, q)
    ensures Dist(o, q) >= 1 && Unit(DirC(o, q), DirR(o, q))
    ensures q == Ray(o, DirC(o, q), DirR(o, q), Dist(o, q))
  {
  }

  lemma RayIsAligned(o: Position, dc: int, dr: int, k: int)
    requires Unit(dc, dr) && k >= 1
    ensures Aligned(o, Ray(o, dc, dr, k))
    ensures DirC(o, Ray(o, dc, dr, k)) == dc && DirR(o, Ray(o, dc, dr, k)) == dr
    ensures Dist(o, Ray(o, dc, dr, k)) == k
  {
  }

  lemma StepRay(o: Position, dc: int, dr: int, k: int)
    requires Unit(dc, dr)
    ensures Step(Ray(o, dc, dr, k), dc, dr) == Ray(o, dc, dr, k + 1)
  {
  }

  /** Two aligned squares in the same direction at the same distance are the same square. */
  lemma SameRaySquare(o: Position, p: Position, q: Position)
    requires Aligned(o, p) && Aligned(o, q)
    ensures DirC(o, p) == DirC(o, q) && DirR(o, p) == DirR(o, q) && Dist(o, p) == Dist(o, q) ==> p == q
  {
    AlignedIsRay(o, p);
    AlignedIsRay(o, q);
  }

  /**
   * A move set made of whole rays from o: every square is on the board and aligned with o,
   * and every square between o and a member is a member.
   */
  predicate Star(s: set<Position>, o: Position) {
    (forall q :: q in s ==> q.OnBoard() && Aligned(o, q)) &&
    (forall q, i :: q in s && 1 <= i < Dist(o, q) ==> Ray(o, DirC(o, q), DirR(o, q), i) in s)
  }

  /** Blocker b cuts off q: same direction from o, and b nearer (or, without inclusion, not farther). */
  predicate Shadows(o: Position, b: Position, q: Position, includeBlocker: bool) {
    DirC(o, b) == DirC(o, q) && DirR(o, b) == DirR(o, q) &&
    (if includeBlocker then Dist(o, b) < Dist(o, q) else Dist(o, b) <= Dist(o, q))
  }

  /** Some blocker in p cuts off q. */
  predicate CutOff(p: set<Position>, o: Position, q: Position, includeBlocker: bool) {
    exists b :: b in p && Shadows(o, b, q, includeBlocker)
  }

  /** The members of s cut off by some blocker in p. */
  function Cut(s: set<Position>, p: set<Position>, o: Position, includeBlocker: bool): set<Position> {
    set q | q in s && CutOff(p, o, q, includeBlocker)
  }

  /** The squares between o and q are free of occ. */
  predicate Clear(o: Position, q: Position, occ: set<Position>) {
    forall i :: 1 <= i < Dist(o, q) ==> Ray(o, DirC(o, q), DirR(o, q), i) !in occ
  }

  /** q lies in direction (dc, dr) from o at distance j or more. */
  predicate OnRayFrom(o: Position, dc: int, dr: int, j: int, q: Position) {
    DirC(o, q) == dc && DirR(o, q) == dr && Dist(o, q) >= j
  }

  /** The part of cur on the ray (dc, dr) beyond index j has no gaps. */
  predicate GapFree(cur: set<Position>, o: Position, dc: int, dr: int, j: int) {
    forall q, i :: q in cur && OnRayFrom(o, dc, dr, j, q) && j <= i <= Dist(o, q) ==> Ray(o, dc, dr, i) in cur
  }

  /** cur without its squares on the ray (dc, dr) at index j or more. */
  function Beyond(cur: set<Position>, o: Position, dc: int, dr: int, j: int): set<Position> {
    set q | q in cur && !OnRayFrom(o, dc, dr, j, q)
  }

  /** Walking a ray through a set whose part on that ray beyond j has no gaps clears exactly that part. */
  lemma {:induction false} WalkAlong(cur: set<Position>, o: Position, dc: int, dr: int, j: int)
    requires Unit(dc, dr) && j >= 1
    requires forall q :: q in cur ==> q.OnBoard() && Aligned(o, q)
    requires GapFree(cur, o, dc, dr, j)
    ensures Walk(cur, Ray(o, dc, dr, j), dc, dr) == Beyond(cur, o, dc, dr, j)
    decreases |cur|
  {
    var p := Ray(o, dc, dr, j);
    if p.OnBoard() && p in cur {
      var next := cur - {p};
      GapFreeAfterStep(cur, o, dc, dr, j);
      WalkAlong(next, o, dc, dr, j + 1);
      WalkStep(cur, o, dc, dr, j);
    } else {
      WalkEnd(cur, o, dc, dr, j);
    }
  }

  /** A walk whose next square is not in cur leaves cur, which then holds nothing on the ray beyond j. */
  lemma WalkEnd(cur: set<Position>, o: Position, dc: int, dr: int, j: int)
    requires forall q :: q in cur ==> q.OnBoard()
    requires GapFree(cur, o, dc, dr, j)
    requires !(Ray(o, dc, dr, j).OnBoard() && Ray(o, dc, dr, j) in cur)
    ensures Walk(cur, Ray(o, dc, dr, j), dc, dr) == Beyond(cur, o, dc, dr, j)
  {
    RayEntry(cur, o, dc, dr, j);
    assert Beyond(cur, o, dc, dr, j) == cur;
  }

  /** One step of the walk: when the rest of the walk clears what lies beyond, so does the whole walk. */
  lemma WalkStep(cur: set<Position>, o: Position, dc: int, dr: int, j: int)
    requires Unit(dc, dr) && j >= 1
    requires forall q :: q in cur ==> Aligned(o, q)
    requires Ray(o, dc, dr, j).OnBoard() && Ray(o, dc, dr, j) in cur
    requires var next := cur - {Ray(o, dc, dr, j)};
      Walk(next, Ray(o, dc, dr, j + 1), dc, dr) == Beyond(next, o, dc, dr, j + 1)
    ensures Walk(cur, Ray(o, dc, dr, j), dc, dr) == Beyond(cur, o, dc, dr, j)
  {
    StepRay(o, dc, dr, j);
    BeyondAfterStep(cur, o, dc, dr, j);
  }

  /** Whatever cur holds on the ray (dc, dr) at index j or more, it holds the square at index j. */
  lemma RayEntry(cur: set<Position>, o: Position, dc: int, dr: int, j: int)
    requires GapFree(cur, o, dc, dr, j)
    ensures forall q :: q in cur && OnRayFrom(o, dc, dr, j, q) ==> Ray(o, dc, dr, j) in cur
  {
    forall q | q in cur && OnRayFrom(o, dc, dr, j, q) ensures Ray(o, dc, dr, j) in cur {
      assert j <= Dist(o, q);
    }
  }

  lemma {:induction false} GapFreeAfterStep(cur: set<Position>, o: Position, dc: int, dr: int, j: int)
    requires Unit(dc, dr) && j >= 1
    requires GapFree(cur, o, dc, dr, j)
    ensures GapFree(cur - {Ray(o, dc, dr, j)}, o, dc, dr, j + 1)
  {
    var next := cur - {Ray(o, dc, dr, j)};
    forall q, i | q in next && OnRayFrom(o, dc, dr, j + 1, q) && j + 1 <= i <= Dist(o, q)
      ensures Ray(o, dc, dr, i) in next
    {
      RayIsAligned(o, dc, dr, i);
      RayIsAligned(o, dc, dr, j);
    }
  }

  lemma {:induction false} BeyondAfterStep(cur: set<Position>, o: Position, dc: int, dr: int, j: int)
    requires Unit(dc, dr) && j >= 1
    requires forall q :: q in cur ==> Aligned(o, q)
    ensures Beyond(cur - {Ray(o, dc, dr, j)}, o, dc, dr, j + 1) == Beyond(cur, o, dc, dr, j)
  {
    var p := Ray(o, dc, dr, j);
    RayIsAligned(o, dc, dr, j);
    forall q | q in cur
      ensures q in Beyond(cur - {p}, o, dc, dr, j + 1) <==> q in Beyond(cur, o, dc, dr, j)
    {
      SameRaySquare(o, p, q);
    }
  }

  /** One blocker's walk on a star move set extends the cut by what that blocker shadows. */
  lemma {:induction false} BlockerStep(s: set<Position>, p: set<Position>, b: Position, o: Position, includeBlocker: bool)
    requires Star(s, o) && b in s
    ensures BlockerWalk(s - Cut(s, p, o, includeBlocker), b, o, includeBlocker) ==
      s - Cut(s, p + {b}, o, includeBlocker)
  {
    var cur := s - Cut(s, p, o, includeBlocker);
    var dc, dr := DirC(o, b), DirR(o, b);
    AlignedIsRay(o, b);
    var start := if includeBlocker then Dist(o, b) + 1 else Dist(o, b);
    StepRay(o, dc, dr, Dist(o, b));
    assert (if includeBlocker then Step(b, dc, dr) else b) == Ray(o, dc, dr, start);
    CutRayClosed(s, p, o, dc, dr, start, includeBlocker);
    WalkAlong(cur, o, dc, dr, start);
    BeyondIsCut(s, p, b, o, start, includeBlocker);
  }

  /** What a cut leaves of a star move set holds every square of a ray between start and any square it keeps. */
  lemma {:induction false} CutRayClosed(s: set<Position>, p: set<Position>, o: Position, dc: int, dr: int, start: nat, includeBlocker: bool)
    requires Star(s, o) && Unit(dc, dr) && start >= 1
    ensures var cur := s - Cut(s, p, o, includeBlocker);
      forall q, i :: q in cur && OnRayFrom(o, dc, dr, start, q) && start <= i <= Dist(o, q) ==> Ray(o, dc, dr, i) in cur
  {
    var cur := s - Cut(s, p, o, includeBlocker);
    forall q, i | q in cur && OnRayFrom(o, dc, dr, start, q) && start <= i <= Dist(o, q)
      ensures Ray(o, dc, dr, i) in cur
    {
      var r := Ray(o, dc, dr, i);
      RayIsAligned(o, dc, dr, i);
      AlignedIsRay(o, q);
      assert r in s;
      assert forall b' :: Shadows(o, b', r, includeBlocker) ==> Shadows(o, b', q, includeBlocker);
    }
  }

  /** The squares of the ray beyond blocker b that a cut keeps are those a cut that adds b removes. */
  lemma {:induction false} BeyondIsCut(s: set<Position>, p: set<Position>, b: Position, o: Position, start: nat, includeBlocker: bool)
    requires Star(s, o) && b in s && Aligned(o, b)
    requires start == if includeBlocker then Dist(o, b) + 1 else Dist(o, b)
    ensures Beyond(s - Cut(s, p, o, includeBlocker), o, DirC(o, b), DirR(o, b), start) == s - Cut(s, p + {b}, o, includeBlocker)
  {
    var cur := s - Cut(s, p, o, includeBlocker);
    var dc, dr := DirC(o, b), DirR(o, b);
    forall q ensures q in Beyond(cur, o, dc, dr, start) <==> q in s - Cut(s, p + {b}, o, includeBlocker) {
      assert OnRayFrom(o, dc, dr, start, q) <==> Shadows(o, b, q, includeBlocker);
    }
  }

  function Elements(bs: seq<Position>): set<Position> {
    set b | b in bs
  }

  /** The walks of a list of blockers on a star move set cut whatever any of them shadows. */
  lemma {:induction false} WalksCut(s: set<Position>, p: set<Position>, bs: seq<Position>, o: Position, includeBlocker: bool)
    requires Star(s, o) && Elements(bs) <= s
    ensures Walks(s - Cut(s, p, o, includeBlocker), bs, o, includeBlocker) ==
      s - Cut(s, p + Elements(bs), o, includeBlocker)
    decreases |bs|
  {
    if bs != [] {
      assert bs[0] in Elements(bs);
      BlockerStep(s, p, bs[0], o, includeBlocker);
      assert Elements(bs[1..]) <= Elements(bs);
      WalksCut(s, p + {bs[0]}, bs[1..], o, includeBlocker);
      assert p + {bs[0]} + Elements(bs[1..]) == p + Elements(bs);
    } else {
      assert Elements(bs) == {};
    }
  }

  /** On a star move set, ComputeRayIntersections removes exactly the squares some obstruction shadows. */
  lemma {:induction false} RayPassOnStar(s: set<Position>, obs: set<Position>, o: Position, includeBlocker: bool)
    requires Star(s, o)
    ensures RayPass(s, obs, o, includeBlocker) == s - Cut(s, s * obs, o, includeBlocker)
  {
    var bs := Enumerate(s * obs);
    EnumerateProperties(s * obs);
    assert Elements(bs) == s * obs;
    assert Cut(s, {}, o, includeBlocker) == {};
    assert s - Cut(s, {}, o, includeBlocker) == s;
    WalksCut(s, {}, bs, o, includeBlocker);
    assert {} + Elements(bs) == s * obs;
  }

  /** Cutting a star move set leaves a star move set. */
  lemma {:induction false} CutKeepsStar(s: set<Position>, p: set<Position>, o: Position, includeBlocker: bool)
    requires Star(s, o)
    ensures Star(s - Cut(s, p, o, includeBlocker), o)
  {
    var k := s - Cut(s, p, o, includeBlocker);
    forall q, i | q in k && 1 <= i < Dist(o, q) ensures Ray(o, DirC(o, q), DirR(o, q), i) in k {
      var r := Ray(o, DirC(o, q), DirR(o, q), i);
      AlignedIsRay(o, q);
      RayIsAligned(o, DirC(o, q), DirR(o, q), i);
      assert r in s;
      assert forall b :: Shadows(o, b, r, includeBlocker) ==> Shadows(o, b, q, includeBlocker);
    }
  }

  /**
   * The refinement of the sliding pieces: an enemy pass keeping the blocker, then a friendly
   * pass dropping it.  On a star move set a square survives iff it is not friendly and every
   * square between it and the piece is free of both sides.
   */
  lemma {:induction false} SliderRefinement(s: set<Position>, enemy: set<Position>, friendly: set<Position>, o: Position)
    requires Star(s, o)
    ensures forall q :: q in RayPass(RayPass(s, enemy, o, true), friendly, o, false) <==>
      q in s && q !in friendly && Clear(o, q, enemy + friendly)
  {
    var s1 := RayPass(s, enemy, o, true);
    RayPassOnStar(s, enemy, o, true);
    CutKeepsStar(s, s * enemy, o, true);
    RayPassOnStar(s1, friendly, o, false);
    var s2 := RayPass(s1, friendly, o, false);
    forall q | q in s2 ensures q in s && q !in friendly && Clear(o, q, enemy + friendly) {
      assert Shadows(o, q, q, false);
      forall i | 1 <= i < Dist(o, q) ensures Ray(o, DirC(o, q), DirR(o, q), i) !in enemy + friendly {
        var r := Ray(o, DirC(o, q), DirR(o, q), i);
        AlignedIsRay(o, q);
        RayIsAligned(o, DirC(o, q), DirR(o, q), i);
        assert r in s1;
        assert Shadows(o, r, q, true) && Shadows(o, r, q, false);
      }
    }
    forall q | q in s && q !in friendly && Clear(o, q, enemy + friendly) ensures q in s2 {
      AlignedIsRay(o, q);
      forall b | b in s * enemy ensures !Shadows(o, b, q, true) {
        AlignedIsRay(o, b);
      }
      assert q in s1;
      forall b | b in s1 * friendly ensures !Shadows(o, b, q, false) {
        AlignedIsRay(o, b);
        SameRaySquare(o, b, q);
      }
    }
  }

  /**
   * Two passes that both drop the blocker (the pawn's forward moves): on a star move set a
   * square survives iff neither obstruction set holds it or any square before it.
   */
  lemma {:induction false} BlockingRefinement(s: set<Position>, a: set<Position>, b: set<Position>, o: Position)
    requires Star(s, o)
    ensures forall q :: q in RayPass(RayPass(s, a, o, false), b, o, false) <==>
      q in s && q !in a && q !in b && Clear(o, q, a + b)
  {
    var s1 := RayPass(s, a, o, false);
    RayPassOnStar(s, a, o, false);
    CutKeepsStar(s, s * a, o, false);
    RayPassOnStar(s1, b, o, false);
    var s2 := RayPass(s1, b, o, false);
    forall q | q in s2 ensures q in s && q !in a && q !in b && Clear(o, q, a + b) {
      assert Shadows(o, q, q, false);
      forall i | 1 <= i < Dist(o, q) ensures Ray(o, DirC(o, q), DirR(o, q), i) !in a + b {
        var r := Ray(o, DirC(o, q), DirR(o, q), i);
        AlignedIsRay(o, q);
        RayIsAligned(o, DirC(o, q), DirR(o, q), i);
        assert r in s1;
        assert Shadows(o, r, q, false);
      }
    }
    forall q | q in s && q !in a && q !in b && Clear(o, q, a + b) ensures q in s2 {
      AlignedIsRay(o, q);
      forall x | x in s * a ensures !Shadows(o, x, q, false) {
        AlignedIsRay(o, x);
        SameRaySquare(o, x, q);
      }
      assert q in s1;
      forall x | x in s1 * b ensures !Shadows(o, x, q, false) {
        AlignedIsRay(o, x);
        SameRaySquare(o, x, q);
      }
    }
  }

  /** Without inclusion no obstruction square survives the pass, whatever the move set. */
  lemma {:induction false} ExcludedObstructionsRemoved(s: set<Position>, obs: set<Position>, o: Position)
    requires forall q :: q in s ==> q.OnBoard()
    ensures RayPass(s, obs, o, false) * obs == {}
  {
    var bs := Enumerate(s * obs);
    EnumerateProperties(s * obs);
    WalksRemove(s, bs, o);
    assert forall q :: q in s * obs ==> q in bs;
    assert forall q :: q in RayPass(s, obs, o, false) ==> q !in obs;
  }

  lemma {:induction false} WalksRemove(cur: set<Position>, bs: seq<Position>, o: Position)
    requires forall b :: b in bs ==> b.OnBoard()
    ensures forall b :: b in bs ==> b !in Walks(cur, bs, o, false)
    decreases |bs|
  {
    if bs != [] {
      var next := BlockerWalk(cur, bs[0], o, false);
      assert bs[0] !in next;
      WalksRemove(next, bs[1..], o);
      forall b | b in bs ensures b !in Walks(cur, bs, o, false) {
        if b != bs[0] {
          assert b in bs[1..];
        }
      }
    }
  }

  /** Without obstructions on the move set, the pass changes nothing. */
  lemma {:induction false} UnobstructedUnchanged(s: set<Position>, obs: set<Position>, o: Position, includeBlocker: bool)
    requires s * obs == {}
    ensures RayPass(s, obs, o, includeBlocker) == s
  {
    EnumerateProperties(s * obs);
    var e := Enumerate(s * obs);
    NonEmptyHasHead(e);
  }

  lemma NonEmptyHasHead(e: seq<Position>)
    ensures e != [] ==> e[0] in e
  {
  }

  /**
   * A move set with no two members one step apart along their direction from o (the king's
   * 3x3 neighbourhood, the knight's jumps).
   */
  predicate Scattered(s: set<Position>, o: Position) {
    (forall q :: q in s ==> q.OnBoard()) &&
    (forall q :: q in s && q != o ==> Step(q, DirC(o, q), DirR(o, q)) !in s)
  }

  /** The squares the pass removes from a scattered set, given the blockers handled so far. */
  function Removed(p: set<Position>, o: Position, includeBlocker: bool): set<Position> {
    if includeBlocker then p * {o} else p
  }

  lemma {:induction false} ScatteredBlockerStep(s: set<Position>, p: set<Position>, b: Position, o: Position, includeBlocker: bool)
    requires Scattered(s, o) && b in s
    ensures BlockerWalk(s - Removed(p, o, includeBlocker), b, o, includeBlocker) ==
      s - Removed(p + {b}, o, includeBlocker)
  {
    var cur := s - Removed(p, o, includeBlocker);
    var dc, dr := DirC(o, b), DirR(o, b);
    if b == o {
      assert Step(b, dc, dr) == b;
      assert Walk(cur - {b}, b, dc, dr) == cur - {b};
    } else {
      assert Step(b, dc, dr) !in cur;
      assert Walk(cur - {b}, Step(b, dc, dr), dc, dr) == cur - {b};
      assert Walk(cur, Step(b, dc, dr), dc, dr) == cur;
    }
  }

  lemma {:induction false} ScatteredWalks(s: set<Position>, p: set<Position>, bs: seq<Position>, o: Position, includeBlocker: bool)
    requires Scattered(s, o) && Elements(bs) <= s
    ensures Walks(s - Removed(p, o, includeBlocker), bs, o, includeBlocker) ==
      s - Removed(p + Elements(bs), o, includeBlocker)
    decreases |bs|
  {
    if bs != [] {
      assert bs[0] in Elements(bs);
      ScatteredBlockerStep(s, p, bs[0], o, includeBlocker);
      assert Elements(bs[1..]) <= Elements(bs);
      ScatteredWalks(s, p + {bs[0]}, bs[1..], o, includeBlocker);
      assert p + {bs[0]} + Elements(bs[1..]) == p + Elements(bs);
    } else {
      assert Elements(bs) == {};
    }
  }

  /**
   * On a scattered move set the pass removes every obstructed square when the blocker is not
   * included, and only the piece's own square (if obstructed) when it is.
   */
  lemma {:induction false} RayPassOnScattered(s: set<Position>, obs: set<Position>, o: Position, includeBlocker: bool)
    requires Scattered(s, o)
    ensures RayPass(s, obs, o, includeBlocker) == if includeBlocker then s - (obs * {o}) else s - obs
  {
    var bs := Enumerate(s * obs);
    EnumerateProperties(s * obs);
    assert Elements(bs) == s * obs;
    assert s - Removed({}, o, includeBlocker) == s;
    ScatteredWalks(s, {}, bs, o, includeBlocker);
    assert {} + Elements(bs) == s * obs;
  }

  /** A subset of a scattered set is scattered. */
  lemma ScatteredSubset(s: set<Position>, t: set<Position>, o: Position)
    requires Scattered(s, o) && t <= s
    ensures Scattered(t, o)
  {
  }
}
