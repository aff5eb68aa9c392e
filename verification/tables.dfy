/**
 * The move tables built once at start-up: pawn pushes and pawn captures per
 * colour, knight and king targets, and the eight sliding rays of each
 * square. The Go code fills arrays indexed by square; each table here is the
 * function computing one entry, with the same tests in the same order, and
 * each carries a characterisation by ranks and files.
 */
module Tables {
  import opened Bitboards
  import opened Notation
  import opened Pieces

  // ---------------------------------------------------------------------
  // Board geometry
  // ---------------------------------------------------------------------

  function Abs(x: int): nat { if x < 0 then -x else x }

  /** Going down one rank is +8 squares, going right one file is +1. */
  lemma Displacement(i: int, j: int)
    requires OnBoard(i) && OnBoard(j)
    ensures j - i == 8 * (Rank(i) - Rank(j)) + (File(j) - File(i))
  {
  }

  /** The rank direction a pawn of colour c advances in. */
  function Forward(c: Colour): int
  {
    if c == WHITE then 1 else -1
  }

  /** The rank from which a pawn of colour c may advance two squares. */
  function HomeRank(c: Colour): int
  {
    if c == WHITE then 2 else 7
  }

  // ---------------------------------------------------------------------
  // Pawns
  // ---------------------------------------------------------------------

  /**
   * `pawnMoves[c][i]`: one square forward unless the pawn stands on the far
   * rank, and two squares forward from its home rank.
   */
  function PawnMoves(c: Colour, i: int): (r: Bitboard)
    requires OnBoard(i)
    ensures forall j :: j in r <==>
              OnBoard(j) && File(j) == File(i)
              && (Rank(j) == Rank(i) + Forward(c)
                  || (Rank(i) == HomeRank(c) && Rank(j) == Rank(i) + 2 * Forward(c)))
  {
    forall j | OnBoard(j) { Displacement(i, j); }
    if c == WHITE then
      if Rank(i) != 8 then
        var b := SetBit({}, i - 8);
        if Rank(i) == 2 then SetBit(b, i - 16) else b
      else {}
    else
      if Rank(i) != 1 then
        var b := SetBit({}, i + 8);
        if Rank(i) == 7 then SetBit(b, i + 16) else b
      else {}
  }

  /** `pawnAttacks[c][i]`: the two squares diagonally forward, where the board has them. */
  function PawnAttacks(c: Colour, i: int): (r: Bitboard)
    requires OnBoard(i)
    ensures forall j :: j in r <==>
              OnBoard(j) && Rank(j) == Rank(i) + Forward(c) && Abs(File(j) - File(i)) == 1
  {
    forall j | OnBoard(j) { Displacement(i, j); }
    if c == WHITE then
      if Rank(i) != 8 then
        var b := if File(i) != 1 then SetBit({}, i - 9) else {};
        if File(i) != 8 then SetBit(b, i - 7) else b
      else {}
    else
      if Rank(i) != 1 then
        var b := if File(i) != 1 then SetBit({}, i + 7) else {};
        if File(i) != 8 then SetBit(b, i + 9) else b
      else {}
  }

  // ---------------------------------------------------------------------
  // Knights and kings
  // ---------------------------------------------------------------------

  /** A knight's jump: two ranks and one file, or one rank and two files. */
  predicate KnightJump(i: int, j: int)
    requires OnBoard(i) && OnBoard(j)
  {
    var dr := Abs(Rank(j) - Rank(i));
    var df := Abs(File(j) - File(i));
    (dr == 2 && df == 1) || (dr == 1 && df == 2)
  }

  /** The eight jumps, each with the edge test that guards it. */
  predicate KnightTarget(i: int, j: int)
    requires OnBoard(i)
  {
    (Rank(i) <= 6 && File(i) != 1 && j == i - 17)
    || (Rank(i) <= 6 && File(i) != 8 && j == i - 15)
    || (Rank(i) <= 7 && File(i) >= 3 && j == i - 10)
    || (Rank(i) <= 7 && File(i) <= 6 && j == i - 6)
    || (Rank(i) >= 3 && File(i) != 1 && j == i + 15)
    || (Rank(i) >= 3 && File(i) != 8 && j == i + 17)
    || (Rank(i) >= 2 && File(i) >= 3 && j == i + 6)
    || (Rank(i) >= 2 && File(i) <= 6 && j == i + 10)
  }

  lemma KnightTargets(i: int, j: int)
    requires OnBoard(i)
    ensures KnightTarget(i, j) <==> OnBoard(j) && KnightJump(i, j)
  {
    if OnBoard(j) {
      Displacement(i, j);
    }
  }

  /** `knightMoves[i]`: the eight jumps, each kept only when it lands on the board. */
  function KnightMoves(i: int): (r: Bitboard)
    requires OnBoard(i)
    ensures forall j :: j in r <==> OnBoard(j) && KnightJump(i, j)
  {
    forall j { KnightTargets(i, j); }
    var b: Bitboard := {};
    var b := if Rank(i) <= 6 && File(i) != 1 then SetBit(b, i - 17) else b;
    var b := if Rank(i) <= 6 && File(i) != 8 then SetBit(b, i - 15) else b;
    var b := if Rank(i) <= 7 && File(i) >= 3 then SetBit(b, i - 10) else b;
    var b := if Rank(i) <= 7 && File(i) <= 6 then SetBit(b, i - 6) else b;
    var b := if Rank(i) >= 3 && File(i) != 1 then SetBit(b, i + 15) else b;
    var b := if Rank(i) >= 3 && File(i) != 8 then SetBit(b, i + 17) else b;
    var b := if Rank(i) >= 2 && File(i) >= 3 then SetBit(b, i + 6) else b;
    if Rank(i) >= 2 && File(i) <= 6 then SetBit(b, i + 10) else b
  }

  /** A king's step: another square at most one rank and one file away. */
  predicate KingStep(i: int, j: int)
    requires OnBoard(i) && OnBoard(j)
  {
    j != i && Abs(Rank(j) - Rank(i)) <= 1 && Abs(File(j) - File(i)) <= 1
  }

  /** The eight neighbours of a square, each with the edge test that guards it. */
  predicate KingTarget(i: int, j: int)
    requires OnBoard(i)
  {
    (Rank(i) != 1 && j == i + 8)
    || (Rank(i) != 1 && File(i) != 1 && j == i + 7)
    || (Rank(i) != 1 && File(i) != 8 && j == i + 9)
    || (Rank(i) != 8 && j == i - 8)
    || (Rank(i) != 8 && File(i) != 1 && j == i - 9)
    || (Rank(i) != 8 && File(i) != 8 && j == i - 7)
    || (File(i) != 1 && j == i - 1)
    || (File(i) != 8 && j == i + 1)
  }

  lemma KingTargets(i: int, j: int)
    requires OnBoard(i)
    ensures KingTarget(i, j) <==> OnBoard(j) && KingStep(i, j)
  {
    if OnBoard(j) {
      Displacement(i, j);
    }
  }

  /** `kingMoves[i]`: the eight neighbours, each kept only when it is on the board. */
  function KingMoves(i: int): (r: Bitboard)
    requires OnBoard(i)
    ensures forall j :: j in r <==> OnBoard(j) && KingStep(i, j)
  {
    forall j { KingTargets(i, j); }
    var b: Bitboard := {};
    var b := if Rank(i) != 1 then SetBit(b, i + 8) else b;
    var b := if Rank(i) != 1 && File(i) != 1 then SetBit(b, i + 7) else b;
    var b := if Rank(i) != 1 && File(i) != 8 then SetBit(b, i + 9) else b;
    var b := if Rank(i) != 8 then SetBit(b, i - 8) else b;
    var b := if Rank(i) != 8 && File(i) != 1 then SetBit(b, i - 9) else b;
    var b := if Rank(i) != 8 && File(i) != 8 then SetBit(b, i - 7) else b;
    var b := if File(i) != 1 then SetBit(b, i - 1) else b;
    if File(i) != 8 then SetBit(b, i + 1) else b
  }

  // ---------------------------------------------------------------------
  // Sliding rays
  // ---------------------------------------------------------------------

  /** The tests that end a ray: the board edge in the direction of travel. */
  predicate AtEdge(dir: Direction, ray: int)
    requires OnBoard(ray)
  {
    (Rank(ray) == 1 && (dir == DOWNLEFT || dir == DOWN || dir == DOWNRIGHT))
    || (Rank(ray) == 8 && (dir == UPLEFT || dir == UP || dir == UPRIGHT))
    || (File(ray) == 1 && (dir == UPLEFT || dir == LEFT || dir == DOWNLEFT))
    || (File(ray) == 8 && (dir == UPRIGHT || dir == RIGHT || dir == DOWNRIGHT))
  }

  /** Squares left between i and the edge in direction dir. */
  function Room(dir: Direction, i: int): (r: nat)
    requires OnBoard(i)
    ensures r <= 7
  {
    var rankRoom := if DRank(dir) == 1 then 8 - Rank(i) else if DRank(dir) == -1 then Rank(i) - 1 else 7;
    var fileRoom := if DFile(dir) == 1 then 8 - File(i) else if DFile(dir) == -1 then File(i) - 1 else 7;
    if rankRoom < fileRoom then rankRoom else fileRoom
  }

  /** The square k steps from i in direction dir. */
  function Step(dir: Direction, i: int, k: int): int
  {
    i + k * Offsets[dir]
  }

  /** Away from the edge, one step stays on the board, moves one rank and file step, and uses up one square of room. */
  lemma StepInward(dir: Direction, i: int)
    requires OnBoard(i)
    ensures AtEdge(dir, i) <==> Room(dir, i) == 0
    ensures !AtEdge(dir, i) ==>
              OnBoard(i + Offsets[dir])
              && Rank(i + Offsets[dir]) == Rank(i) + DRank(dir)
              && File(i + Offsets[dir]) == File(i) + DFile(dir)
              && Room(dir, i + Offsets[dir]) == Room(dir, i) - 1
  {
  }

  /** The k-th square of a ray, k up to the room, is on the board at k rank and k file steps. */
  lemma {:induction false} StepCoordinates(dir: Direction, i: int, k: int)
    requires OnBoard(i) && 0 <= k <= Room(dir, i)
    ensures OnBoard(Step(dir, i, k))
    ensures Rank(Step(dir, i, k)) == Rank(i) + k * DRank(dir)
    ensures File(Step(dir, i, k)) == File(i) + k * DFile(dir)
    ensures Room(dir, Step(dir, i, k)) == Room(dir, i) - k
    decreases k
  {
    if k > 0 {
      StepCoordinates(dir, i, k - 1);
      var p := Step(dir, i, k - 1);
      assert Step(dir, i, k) == p + Offsets[dir] by {
        Affine(i, k, Offsets[dir], p);
      }
      StepInward(dir, p);
      Affine(Rank(i), k, DRank(dir), Rank(p));
      Affine(File(i), k, DFile(dir), File(p));
    }
  }

  /** One more step of size d. */
  lemma Affine(a: int, k: int, d: int, b: int)
    requires b == a + (k - 1) * d
    ensures b + d == a + k * d
  {
  }

  /** One step then k more is k + 1 steps. */
  lemma StepShift(dir: Direction, i: int, k: int)
    ensures Step(dir, i + Offsets[dir], k) == Step(dir, i, k + 1)
  {
    assert (k + 1) * Offsets[dir] == k * Offsets[dir] + Offsets[dir];
  }

  /**
   * The inner loop of the sliding-table construction, from square `ray`
   * with the squares `acc` already set: stop at the edge, otherwise step
   * and set the new square.
   */
  function Ray(dir: Direction, ray: int, acc: Bitboard): (r: Bitboard)
    requires OnBoard(ray)
    ensures forall j :: j in r <==>
              j in acc || exists k | 1 <= k <= Room(dir, ray) :: j == Step(dir, ray, k)
    decreases Room(dir, ray)
  {
    StepInward(dir, ray);
    if Rank(ray) == 1 && (dir == DOWNLEFT || dir == DOWN || dir == DOWNRIGHT) then acc
    else if Rank(ray) == 8 && (dir == UPLEFT || dir == UP || dir == UPRIGHT) then acc
    else if File(ray) == 1 && (dir == UPLEFT || dir == LEFT || dir == DOWNLEFT) then acc
    else if File(ray) == 8 && (dir == UPRIGHT || dir == RIGHT || dir == DOWNRIGHT) then acc
    else
      var next := ray + Offsets[dir];
      var r := Ray(dir, next, SetBit(acc, next));
      RayStepMembers(dir, ray, next, acc, r);
      r
  }

  lemma RayStepMembers(dir: Direction, ray: int, next: int, acc: Bitboard, r: Bitboard)
    requires OnBoard(ray) && next == ray + Offsets[dir] && OnBoard(next)
    requires Room(dir, next) == Room(dir, ray) - 1
    requires forall j :: j in r <==>
               j in acc || j == next || exists k | 1 <= k <= Room(dir, next) :: j == Step(dir, next, k)
    ensures forall j :: j in r <==>
              j in acc || exists k | 1 <= k <= Room(dir, ray) :: j == Step(dir, ray, k)
  {
    forall j
      ensures j in r <==> j in acc || exists k | 1 <= k <= Room(dir, ray) :: j == Step(dir, ray, k)
    {
      if j in r && j !in acc {
        if j == next {
          assert j == Step(dir, ray, 1);
        } else {
          var k :| 1 <= k <= Room(dir, next) && j == Step(dir, next, k);
          StepShift(dir, ray, k);
          assert j == Step(dir, ray, k + 1);
        }
      }
      if exists k | 1 <= k <= Room(dir, ray) :: j == Step(dir, ray, k) {
        var k :| 1 <= k <= Room(dir, ray) && j == Step(dir, ray, k);
        if k == 1 {
          assert j == next;
        } else {
          StepShift(dir, ray, k - 1);
          assert j == Step(dir, next, k - 1);
        }
      }
    }
  }

  /** `slidingMoves[dir][i]`: the ray from i in direction dir, up to the edge. */
  function SlidingMoves(dir: Direction, i: int): (r: Bitboard)
    requires OnBoard(i)
    ensures forall j :: j in r <==> exists k | 1 <= k <= Room(dir, i) :: j == Step(dir, i, k)
  {
    Ray(dir, i, {})
  }

  /**
   * LEFT..UPRIGHT step to lower squares and RIGHT..DOWNLEFT to higher ones,
   * so a ray lies wholly below or wholly above its origin, never on it.
   * Along a ray the squares move away from the origin one step at a time.
   */
  lemma RaySide(dir: Direction, i: int, k: int, l: int)
    requires k < l
    ensures dir <= UPRIGHT ==> Step(dir, i, l) < Step(dir, i, k)
    ensures dir >= RIGHT ==> Step(dir, i, k) < Step(dir, i, l)
  {
    OffsetSigns(dir);
    assert Step(dir, i, l) - Step(dir, i, k) == (l - k) * Offsets[dir];
    if dir <= UPRIGHT {
      assert (l - k) * Offsets[dir] < 0;
    } else {
      assert (l - k) * Offsets[dir] > 0;
    }
  }

  /** No ray holds its own origin; rays of LEFT..UPRIGHT lie below it and the others above. */
  lemma RayExcludesOrigin(dir: Direction, i: int)
    requires OnBoard(i)
    ensures i !in SlidingMoves(dir, i)
    ensures forall j | j in SlidingMoves(dir, i) :: if dir <= UPRIGHT then j < i else j > i
  {
    forall j | j in SlidingMoves(dir, i)
      ensures if dir <= UPRIGHT then j < i else j > i
    {
      var k :| 1 <= k <= Room(dir, i) && j == Step(dir, i, k);
      RaySide(dir, i, 0, k);
    }
  }

  /** j lies k rank steps and k file steps of direction dir away from i. */
  predicate Reaches(dir: Direction, i: int, j: int, k: int)
    requires OnBoard(i) && OnBoard(j)
  {
    Rank(j) == Rank(i) + k * DRank(dir) && File(j) == File(i) + k * DFile(dir)
  }

  /** A square reached by k >= 1 whole steps is the k-th square of the ray. */
  lemma ReachedIsStep(dir: Direction, i: int, j: int, k: int)
    requires OnBoard(i) && OnBoard(j) && k >= 1 && Reaches(dir, i, j, k)
    ensures k <= Room(dir, i) && j == Step(dir, i, k)
  {
    var dr, df := DRank(dir), DFile(dir);
    OffsetsMatchSteps(dir);
    UnitTimes(k, dr);
    UnitTimes(k, df);
    assert k * Offsets[dir] == -8 * (k * dr) + k * df by {
      Distribute(k, dr, df);
    }
    Displacement(i, j);
  }

  /** k times a unit step, -1, 0 or 1. */
  lemma UnitTimes(k: int, d: int)
    requires -1 <= d <= 1
    ensures k * d == if d == 1 then k else if d == -1 then -k else 0
  {
  }

  lemma Distribute(k: int, a: int, b: int)
    ensures k * (-8 * a + b) == -8 * (k * a) + k * b
  {
  }

  /**
   * `slidingMoves[dir][i]` is every board square a whole number of steps
   * (at least one) of direction dir away from i: the ray runs to the edge
   * and no further.
   */
  lemma RayGeometry(dir: Direction, i: int, j: int)
    requires OnBoard(i)
    ensures j in SlidingMoves(dir, i) <==> OnBoard(j) && exists k | k >= 1 :: Reaches(dir, i, j, k)
  {
    if j in SlidingMoves(dir, i) {
      var k :| 1 <= k <= Room(dir, i) && j == Step(dir, i, k);
      StepCoordinates(dir, i, k);
      assert Reaches(dir, i, j, k);
    }
    if OnBoard(j) && exists k | k >= 1 :: Reaches(dir, i, j, k) {
      var k :| k >= 1 && Reaches(dir, i, j, k);
      ReachedIsStep(dir, i, j, k);
    }
  }

  /**
   * From the k0-th square of a ray the same direction continues the ray:
   * its squares are those of the original ray beyond k0. So the ray from a
   * square on a ray is part of that ray.
   */
  lemma RayNesting(dir: Direction, i: int, k0: int)
    requires OnBoard(i) && 1 <= k0 <= Room(dir, i)
    ensures OnBoard(Step(dir, i, k0))
    ensures forall x :: x in SlidingMoves(dir, Step(dir, i, k0)) <==>
              exists k | k0 < k <= Room(dir, i) :: x == Step(dir, i, k)
    ensures SlidingMoves(dir, Step(dir, i, k0)) <= SlidingMoves(dir, i)
  {
    var j := Step(dir, i, k0);
    StepCoordinates(dir, i, k0);
    forall x
      ensures x in SlidingMoves(dir, j) <==> exists k | k0 < k <= Room(dir, i) :: x == Step(dir, i, k)
    {
      if x in SlidingMoves(dir, j) {
        var k :| 1 <= k <= Room(dir, j) && x == Step(dir, j, k);
        StepsAdd(dir, i, k0, k);
      }
      if exists k | k0 < k <= Room(dir, i) :: x == Step(dir, i, k) {
        var k :| k0 < k <= Room(dir, i) && x == Step(dir, i, k);
        StepsAdd(dir, i, k0, k - k0);
      }
    }
  }

  lemma StepsAdd(dir: Direction, i: int, a: int, b: int)
    ensures Step(dir, Step(dir, i, a), b) == Step(dir, i, a + b)
  {
    assert (a + b) * Offsets[dir] == a * Offsets[dir] + b * Offsets[dir];
  }
}
