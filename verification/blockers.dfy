/**
 * Cutting a sliding ray at its nearest blocker, as the bishop, rook and
 * queen generators do: the blocker is the highest occupied ray square for
 * directions that step to lower squares and the lowest for the others, and
 * the ray beyond it is the blocker's own ray in the same direction.
 */
module Blockers {
  import opened Bitboards
  import opened Pieces
  import opened Tables

  /** No square strictly before the k-th one of the ray is occupied. */
  predicate Unblocked(dir: Direction, from: int, occupied: Bitboard, k: int)
  {
    forall l | 1 <= l < k :: Step(dir, from, l) !in occupied
  }

  /** j is on the ray and nothing stands between from and j. */
  predicate Reachable(dir: Direction, from: int, occupied: Bitboard, j: int)
    requires OnBoard(from)
  {
    exists k | 1 <= k <= Room(dir, from) :: j == Step(dir, from, k) && Unblocked(dir, from, occupied, k)
  }

  /** The empty squares a slider reaches in one direction. */
  function Open(dir: Direction, from: int, occupied: Bitboard): (r: Bitboard)
    requires OnBoard(from)
    ensures forall j :: j in r <==> OnBoard(j) && Reachable(dir, from, occupied, j) && j !in occupied
  {
    set j | 0 <= j < 64 && Reachable(dir, from, occupied, j) && j !in occupied
  }

  /** The k-th square of the ray is the first occupied one. */
  predicate FirstBlocker(dir: Direction, from: int, occupied: Bitboard, k: int)
    requires OnBoard(from)
  {
    1 <= k <= Room(dir, from) && Step(dir, from, k) in occupied && Unblocked(dir, from, occupied, k)
  }

  /** `endSquare`: `rightBit` of the blocked ray for LEFT..UPRIGHT, `leftBit` for the rest. */
  function EndSquare(dir: Direction, from: int, occupied: Bitboard): (e: int)
    requires OnBoard(from) && SlidingMoves(dir, from) * occupied != {}
    ensures e in SlidingMoves(dir, from) * occupied
    ensures dir <= UPRIGHT ==> forall j | j in SlidingMoves(dir, from) * occupied :: j <= e
    ensures dir > UPRIGHT ==> forall j | j in SlidingMoves(dir, from) * occupied :: e <= j
  {
    var blocked := SlidingMoves(dir, from) * occupied;
    if dir <= UPRIGHT then RightBit(blocked) else LeftBit(blocked)
  }

  /** Steps along one ray land on distinct squares. */
  lemma StepInjective(dir: Direction, from: int, k: int, l: int)
    requires Step(dir, from, k) == Step(dir, from, l)
    ensures k == l
  {
    if k < l { RaySide(dir, from, k, l); }
    if l < k { RaySide(dir, from, l, k); }
  }

  /** The end square is the nearest occupied square of the ray. */
  lemma NearestEnd(dir: Direction, from: int, occupied: Bitboard) returns (k: int)
    requires OnBoard(from) && SlidingMoves(dir, from) * occupied != {}
    ensures FirstBlocker(dir, from, occupied, k) && EndSquare(dir, from, occupied) == Step(dir, from, k)
  {
    var ray := SlidingMoves(dir, from);
    var e := EndSquare(dir, from, occupied);
    assert e in ray;
    k :| 1 <= k <= Room(dir, from) && e == Step(dir, from, k);
    forall l | 1 <= l < k
      ensures Step(dir, from, l) !in occupied
    {
      NearerIsOutside(dir, from, occupied, k, l);
    }
  }

  /** A ray square nearer than the end square lies beyond it in the scan order, so it is empty. */
  lemma NearerIsOutside(dir: Direction, from: int, occupied: Bitboard, k: int, l: int)
    requires OnBoard(from) && SlidingMoves(dir, from) * occupied != {}
    requires 1 <= l < k <= Room(dir, from) && EndSquare(dir, from, occupied) == Step(dir, from, k)
    ensures Step(dir, from, l) !in occupied
  {
    var near := Step(dir, from, l);
    var blocked := SlidingMoves(dir, from) * occupied;
    RaySide(dir, from, l, k);
    assert near in SlidingMoves(dir, from);
    assert near in occupied ==> near in blocked;
  }

  /** Squares up to the first blocker are exactly those reachable. */
  lemma ReachableUpTo(dir: Direction, from: int, occupied: Bitboard, kb: int, j: int)
    requires OnBoard(from) && FirstBlocker(dir, from, occupied, kb)
    ensures Reachable(dir, from, occupied, j) <==> exists k | 1 <= k <= kb :: j == Step(dir, from, k)
  {
    if Reachable(dir, from, occupied, j) {
      var k :| 1 <= k <= Room(dir, from) && j == Step(dir, from, k) && Unblocked(dir, from, occupied, k);
      assert kb < k ==> Step(dir, from, kb) !in occupied;
    }
    if exists k | 1 <= k <= kb :: j == Step(dir, from, k) {
      var k :| 1 <= k <= kb && j == Step(dir, from, k);
      assert Unblocked(dir, from, occupied, k);
    }
  }

  /** With nothing on the ray, the whole ray is open. */
  lemma ClearRayIsOpen(dir: Direction, from: int, occupied: Bitboard)
    requires OnBoard(from) && SlidingMoves(dir, from) * occupied == {}
    ensures Open(dir, from, occupied) == SlidingMoves(dir, from)
  {
    forall j | j in SlidingMoves(dir, from)
      ensures j in Open(dir, from, occupied)
    {
      var k :| 1 <= k <= Room(dir, from) && j == Step(dir, from, k);
      forall l | 1 <= l < k
        ensures Step(dir, from, l) !in occupied
      {
        assert Step(dir, from, l) in SlidingMoves(dir, from);
      }
      assert Unblocked(dir, from, occupied, k);
    }
  }

  /**
   * The ray less the end square's own ray, less the end square itself, is
   * exactly the open part of the ray.
   */
  lemma CutRayIsOpen(dir: Direction, from: int, occupied: Bitboard)
    requires OnBoard(from) && SlidingMoves(dir, from) * occupied != {}
    ensures var e := EndSquare(dir, from, occupied);
            OnBoard(e) && e in occupied && Reachable(dir, from, occupied, e)
            && (SlidingMoves(dir, from) - SlidingMoves(dir, e)) - {e} == Open(dir, from, occupied)
  {
    var e := EndSquare(dir, from, occupied);
    var kb := NearestEnd(dir, from, occupied);
    RayNesting(dir, from, kb);
    ReachableUpTo(dir, from, occupied, kb, e);
    var nested := SlidingMoves(dir, e);
    var cut := (SlidingMoves(dir, from) - nested) - {e};
    forall j
      ensures j in cut <==> j in Open(dir, from, occupied)
    {
      ReachableUpTo(dir, from, occupied, kb, j);
      if j in cut {
        var k :| 1 <= k <= Room(dir, from) && j == Step(dir, from, k);
        assert kb < k ==> j in nested;
        assert k != kb;
        assert Unblocked(dir, from, occupied, kb);
        assert j !in occupied;
      }
      if j in Open(dir, from, occupied) {
        var k :| 1 <= k <= kb && j == Step(dir, from, k);
        assert k == kb ==> j in occupied;
        if j in nested {
          var k2 :| kb < k2 <= Room(dir, from) && j == Step(dir, from, k2);
          StepInjective(dir, from, k, k2);
        }
        StepCoordinates(dir, from, k);
      }
    }
  }

  /**
   * One pass of the direction loop: the moves so far, all on empty squares,
   * gain the open part of this ray; a blocked ray also yields its end
   * square, which is occupied and reachable.
   */
  lemma DirectionStep(dir: Direction, from: int, occupied: Bitboard, moves: Bitboard)
    requires OnBoard(from) && moves * occupied == {}
    ensures SlidingMoves(dir, from) * occupied != {} ==>
              var e := EndSquare(dir, from, occupied);
              ClearBit(moves + (SlidingMoves(dir, from) - SlidingMoves(dir, e)), e) == moves + Open(dir, from, occupied)
    ensures SlidingMoves(dir, from) * occupied == {} ==>
              moves + SlidingMoves(dir, from) == moves + Open(dir, from, occupied)
  {
    if SlidingMoves(dir, from) * occupied != {} {
      CutRayIsOpen(dir, from, occupied);
    } else {
      ClearRayIsOpen(dir, from, occupied);
    }
  }
}
