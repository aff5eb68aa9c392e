/**
 * The bishop, rook and queen loops of the generator. For each direction the
 * ray is cut at its nearest blocker: the open squares gather into one board
 * of quiet moves, and a blocker that holds an opponent piece is offered as
 * a capture as soon as its direction has been scanned.
 */
module Sliders {
  import opened Bitboards
  import opened Pieces
  import opened Tables
  import opened Blockers
  import opened Offers

  predicate IsSlider(kind: Kind)
  {
    kind == BISHOP || kind == ROOK || kind == QUEEN
  }

  /** The directions each slider scans, in loop order: every other one from UPLEFT or LEFT, or all eight. */
  function Directions(kind: Kind): (dirs: seq<Direction>)
    requires IsSlider(kind)
    ensures forall d: Direction :: d in dirs <==>
              if kind == BISHOP then d % 2 == 1 else if kind == ROOK then d % 2 == 0 else true
  {
    if kind == BISHOP then [UPLEFT, UPRIGHT, DOWNRIGHT, DOWNLEFT]
    else if kind == ROOK then [LEFT, UP, RIGHT, DOWN]
    else [LEFT, UPLEFT, UP, UPRIGHT, RIGHT, DOWNRIGHT, DOWN, DOWNLEFT]
  }

  /** The loop's state: the quiet-move board built so far and the captures offered so far. */
  datatype ScanState = ScanState(moves: Bitboard, captures: seq<Offer>)

  /** One pass of the direction loop for direction dir. */
  function ScanStep(s: ScanState, dir: Direction, from: int, kind: Kind, occupied: Bitboard, opp: Bitboard): ScanState
    requires OnBoard(from)
  {
    var ray := SlidingMoves(dir, from);
    if ray * occupied != {} then
      var e := EndSquare(dir, from, occupied);
      var moves := ClearBit(s.moves + (ray - SlidingMoves(dir, e)), e);
      ScanState(moves, if e in opp then s.captures + [Take(from, e, kind)] else s.captures)
    else
      ScanState(s.moves + ray, s.captures)
  }

  /** The direction loop over dirs, in order, starting from no moves. */
  function Scan(dirs: seq<Direction>, from: int, kind: Kind, occupied: Bitboard, opp: Bitboard): ScanState
    requires OnBoard(from)
    decreases |dirs|
  {
    if dirs == [] then ScanState({}, [])
    else ScanStep(Scan(dirs[..|dirs| - 1], from, kind, occupied, opp), dirs[|dirs| - 1], from, kind, occupied, opp)
  }

  /** j lies along one of dirs from `from` with nothing standing in between. */
  predicate Sees(dirs: seq<Direction>, from: int, occupied: Bitboard, j: int)
    requires OnBoard(from)
  {
    exists d | d in dirs :: Reachable(d, from, occupied, j)
  }

  lemma SeesSplit(init: seq<Direction>, d: Direction, dirs: seq<Direction>, from: int, occupied: Bitboard)
    requires OnBoard(from) && dirs == init + [d]
    ensures forall j :: Sees(dirs, from, occupied, j) <==> Sees(init, from, occupied, j) || Reachable(d, from, occupied, j)
  {
    assert forall e :: e in dirs <==> e in init || e == d;
  }

  /**
   * The quiet-move board of the loop is exactly the empty squares some
   * scanned direction reaches: a blocker never becomes a quiet move, and
   * nothing beyond a blocker does.
   */
  lemma {:induction false} ScanMoves(dirs: seq<Direction>, from: int, kind: Kind, occupied: Bitboard, opp: Bitboard)
    requires OnBoard(from)
    ensures Scan(dirs, from, kind, occupied, opp).moves * occupied == {}
    ensures forall j :: j in Scan(dirs, from, kind, occupied, opp).moves <==>
              OnBoard(j) && j !in occupied && Sees(dirs, from, occupied, j)
    decreases |dirs|
  {
    if dirs != [] {
      var init, d := dirs[..|dirs| - 1], dirs[|dirs| - 1];
      assert dirs == init + [d];
      ScanMoves(init, from, kind, occupied, opp);
      var s := Scan(init, from, kind, occupied, opp);
      DirectionStep(d, from, occupied, s.moves);
      assert Scan(dirs, from, kind, occupied, opp).moves == s.moves + Open(d, from, occupied);
      SeesSplit(init, d, dirs, from, occupied);
    }
  }

  /** An occupied square is reachable along a ray exactly when the ray is blocked and it is the end square. */
  lemma BlockerIsEnd(dir: Direction, from: int, occupied: Bitboard, j: int)
    requires OnBoard(from) && j in occupied
    ensures Reachable(dir, from, occupied, j) <==>
              SlidingMoves(dir, from) * occupied != {} && j == EndSquare(dir, from, occupied)
  {
    if Reachable(dir, from, occupied, j) {
      var k :| 1 <= k <= Room(dir, from) && j == Step(dir, from, k) && Unblocked(dir, from, occupied, k);
      assert j in SlidingMoves(dir, from) * occupied;
      var kb := NearestEnd(dir, from, occupied);
      ReachableUpTo(dir, from, occupied, kb, j);
      var k2 :| 1 <= k2 <= kb && j == Step(dir, from, k2);
      assert k2 == kb;
    }
    if SlidingMoves(dir, from) * occupied != {} && j == EndSquare(dir, from, occupied) {
      CutRayIsOpen(dir, from, occupied);
    }
  }

  /**
   * The captures of the loop are exactly the opponent squares some scanned
   * direction reaches, each offered as a capture by the sliding piece.
   */
  lemma {:induction false} ScanCaptures(dirs: seq<Direction>, from: int, kind: Kind, occupied: Bitboard, opp: Bitboard)
    requires OnBoard(from) && opp <= occupied
    ensures forall x :: x in Scan(dirs, from, kind, occupied, opp).captures <==>
              x.Take? && x.from == from && x.piece == kind && x.to in opp && Sees(dirs, from, occupied, x.to)
    decreases |dirs|
  {
    if dirs != [] {
      var init, d := dirs[..|dirs| - 1], dirs[|dirs| - 1];
      assert dirs == init + [d];
      ScanCaptures(init, from, kind, occupied, opp);
      SeesSplit(init, d, dirs, from, occupied);
      CaptureStep(Scan(init, from, kind, occupied, opp), d, from, kind, occupied, opp);
    }
  }

  /** One pass adds the capture of this direction's blocker, when it is an opponent piece, and nothing else. */
  lemma CaptureStep(s: ScanState, dir: Direction, from: int, kind: Kind, occupied: Bitboard, opp: Bitboard)
    requires OnBoard(from) && opp <= occupied
    ensures forall x :: x in ScanStep(s, dir, from, kind, occupied, opp).captures <==>
              x in s.captures || (x.Take? && x.from == from && x.piece == kind && x.to in opp && Reachable(dir, from, occupied, x.to))
  {
    forall x
      ensures x in ScanStep(s, dir, from, kind, occupied, opp).captures <==>
              x in s.captures || (x.Take? && x.from == from && x.piece == kind && x.to in opp && Reachable(dir, from, occupied, x.to))
    {
      if x.Take? && x.to in opp {
        BlockerIsEnd(dir, from, occupied, x.to);
      }
    }
  }
}
