/**
 * The legality filter of the move generator.
 *
 * Every move is offered to `AddToMovelist`, which edits the colour boards
 * as if the move were made, asks whether the own king would be attacked,
 * appends the move if not, and puts the boards back. A run of offers threads
 * the position (whose colour boards these edits touch) and the list through
 * every step.
 */
module MoveLists {
  import opened Words
  import opened Bitboards
  import opened Notation
  import opened Pieces
  import opened Positions
  import opened Moves
  import opened Oracles

  /** The position the generator works on and the moves found so far. */
  datatype Gen = Gen(pos: Position, list: seq<Move>)

  /** p and q differ at most in their colour boards. */
  predicate SameButColours(p: Position, q: Position)
  {
    p == q.(white := p.white, black := p.black)
  }

  /** What `SameButColours` keeps: everything but the two colour boards. */
  lemma SameFrame(p: Position, q: Position)
    requires SameButColours(p, q)
    ensures p.toMove == q.toMove && p.enpassant == q.enpassant && p.pieces == q.pieces
    ensures p.castleWK == q.castleWK && p.castleWQ == q.castleWQ
    ensures p.castleBK == q.castleBK && p.castleBQ == q.castleBQ
    ensures p.fiftyMoveCounter == q.fiftyMoveCounter && p.fullMoveCounter == q.fullMoveCounter
  {
  }

  /** `getPieceOnSquare` answers with a kind that fits the three-bit capture field. */
  ghost predicate PieceFits(o: Oracle)
  {
    forall p: Position, square: int :: 0 <= o.getPieceOnSquare(p, square) < 8
  }

  // ---------------------------------------------------------------------
  // addToMovelist
  // ---------------------------------------------------------------------

  /**
   * The square whose piece a capture onto `to` removes: for a capture onto
   * the en-passant square, the square behind it (+8 for white, -8 for black).
   */
  function Victim(pos: Position, to: int): int
  {
    if to == pos.enpassant then
      if pos.toMove == WHITE then pos.enpassant + 8 else pos.enpassant - 8
    else to
  }

  function CapturedSquare(pos: Position, m: Move): int
  {
    Victim(pos, To(m))
  }

  /** The captured square can be cleared and set without a negative shift count. */
  predicate CaptureInRange(pos: Position, m: Move)
  {
    Capture(m) ==> CapturedSquare(pos, m) <= 63
  }

  /**
   * The temporary edit: the mover leaves its from square for its to
   * square, and a captured piece leaves the board.
   */
  function Edited(pos: Position, m: Move): (r: Position)
    requires CaptureInRange(pos, m)
    ensures SameButColours(r, pos)
    ensures r.Colours(pos.toMove) == (pos.Colours(pos.toMove) - {From(m)}) + {To(m)}
    ensures r.Colours(Opponent(pos.toMove))
         == if Capture(m) then pos.Colours(Opponent(pos.toMove)) - {CapturedSquare(pos, m)}
            else pos.Colours(Opponent(pos.toMove))
  {
    var c, from, to := pos.toMove, From(m), To(m);
    var own := SetBit(ClearBit(pos.Colours(c), from), to);
    assert own == (pos.Colours(c) - {from}) + {to};
    var moved := pos.WithColours(c, own);
    if Capture(m) then
      var square := CapturedSquare(pos, m);
      var opp := ClearBit(moved.Colours(Opponent(c)), square);
      assert opp == pos.Colours(Opponent(c)) - {square};
      moved.WithColours(Opponent(c), opp)
    else moved
  }

  /**
   * The legality test on the edited position: a king move must not land on
   * an attacked square; any other move must leave the own king unattacked.
   */
  predicate Safe(o: Oracle, edited: Position, m: Move)
  {
    var them := Opponent(edited.toMove);
    if MovingPiece(m) == KING then !o.isSquareAttacked(edited, To(m), them)
    else !o.isSquareAttacked(edited, o.getKingSquare(edited, edited.toMove), them)
  }

  /**
   * `addToMovelist(pos, ml, m)`: m is appended exactly when it passes the
   * legality test on the edited position; only the colour boards change.
   */
  function AddToMovelist(o: Oracle, g: Gen, m: Move): (r: Gen)
    requires CaptureInRange(g.pos, m)
    ensures r.list == g.list + [m] || r.list == g.list
    ensures r.list == g.list + [m] <==> Safe(o, Edited(g.pos, m), m)
    ensures SameButColours(r.pos, g.pos)
  {
    var c := g.pos.toMove;
    var them := Opponent(c);
    var edited := Edited(g.pos, m);
    var list := if Safe(o, edited, m) then g.list + [m] else g.list;
    var restored := edited.WithColours(c, SetBit(ClearBit(edited.Colours(c), To(m)), From(m)));
    var restored := if Capture(m) then
                      restored.WithColours(them, SetBit(restored.Colours(them), CapturedSquare(g.pos, m)))
                    else restored;
    Gen(restored, list)
  }

  /**
   * Afterwards the mover's board has the to square cleared and the from
   * square set, and the opponent's board has the captured square set again.
   */
  lemma AddToMovelistBoards(o: Oracle, g: Gen, m: Move)
    requires CaptureInRange(g.pos, m)
    ensures var r := AddToMovelist(o, g, m);
            r.pos.Colours(g.pos.toMove) == (g.pos.Colours(g.pos.toMove) - {To(m)}) + {From(m)}
            && r.pos.Colours(Opponent(g.pos.toMove))
               == if Capture(m) then SetBit(g.pos.Colours(Opponent(g.pos.toMove)), CapturedSquare(g.pos, m))
                  else g.pos.Colours(Opponent(g.pos.toMove))
  {
  }

  /**
   * The boards are put back as they were exactly when the mover stood on
   * its from square, its to square was not its own (or is the from square),
   * and a captured square on the board held an opponent piece.
   */
  predicate Restores(pos: Position, m: Move)
  {
    Undoes(pos, From(m), To(m), Capture(m))
  }

  /** `Restores` for a move from `from` to `to` that captures when `capture` holds. */
  predicate Undoes(pos: Position, from: int, to: int, capture: bool)
  {
    var own := pos.Colours(pos.toMove);
    from in own && (to !in own || to == from)
    && (capture && Victim(pos, to) >= 0 ==> Victim(pos, to) in pos.Colours(Opponent(pos.toMove)))
  }

  lemma AddToMovelistRestores(o: Oracle, g: Gen, m: Move)
    requires CaptureInRange(g.pos, m)
    ensures AddToMovelist(o, g, m).pos == g.pos <==> Restores(g.pos, m)
  {
    var r := AddToMovelist(o, g, m);
    AddToMovelistBoards(o, g, m);
    var c := g.pos.toMove;
    var own := g.pos.Colours(c);
    var opp := g.pos.Colours(Opponent(c));
    if r.pos == g.pos {
      assert From(m) in r.pos.Colours(c);
      assert r.pos.Colours(c) == own;
      assert r.pos.Colours(Opponent(c)) == opp;
    }
    if Restores(g.pos, m) {
      assert r.pos.Colours(c) == own;
      assert r.pos.Colours(Opponent(c)) == opp;
      if c == WHITE {
        assert r.pos.white == g.pos.white && r.pos.black == g.pos.black;
      } else {
        assert r.pos.white == g.pos.white && r.pos.black == g.pos.black;
      }
    }
  }

  // ---------------------------------------------------------------------
  // Runs of offers
  // ---------------------------------------------------------------------

  /** sub is ms with some elements left out, the rest in their order. */
  predicate Picks(sub: seq<Move>, ms: seq<Move>)
    decreases |ms|
  {
    if sub == [] then true
    else if ms == [] then false
    else (sub[0] == ms[0] && Picks(sub[1..], ms[1..])) || Picks(sub, ms[1..])
  }

  /** Keeping everything is a pick. */
  lemma {:induction false} PicksAll(ms: seq<Move>)
    ensures Picks(ms, ms)
    decreases |ms|
  {
    if ms != [] {
      PicksAll(ms[1..]);
    }
  }

  /** A picked element is one of the offered ones. */
  lemma {:induction false} PicksAreOffered(sub: seq<Move>, ms: seq<Move>)
    requires Picks(sub, ms)
    ensures forall k | 0 <= k < |sub| :: sub[k] in ms
    decreases |ms|
  {
    if sub != [] {
      if sub[0] == ms[0] && Picks(sub[1..], ms[1..]) {
        PicksAreOffered(sub[1..], ms[1..]);
        assert forall k | 1 <= k < |sub| :: sub[k] == sub[1..][k - 1];
      } else {
        PicksAreOffered(sub, ms[1..]);
      }
    }
  }

  /** Picking keeps an order that the offered moves are in. */
  lemma {:induction false} PicksKeepOrder(sub: seq<Move>, ms: seq<Move>, key: Move -> int)
    requires Picks(sub, ms)
    requires forall k, l | 0 <= k < l < |ms| :: key(ms[k]) < key(ms[l])
    ensures forall k, l | 0 <= k < l < |sub| :: key(sub[k]) < key(sub[l])
    decreases |ms|
  {
    if sub != [] {
      if sub[0] == ms[0] && Picks(sub[1..], ms[1..]) {
        PicksKeepOrder(sub[1..], ms[1..], key);
        PicksAreOffered(sub[1..], ms[1..]);
        forall k, l | 0 <= k < l < |sub|
          ensures key(sub[k]) < key(sub[l])
        {
          assert sub[l] == sub[1..][l - 1];
          if k > 0 {
            assert sub[k] == sub[1..][k - 1];
          } else {
            var j :| 0 <= j < |ms[1..]| && ms[1..][j] == sub[l];
            assert ms[j + 1] == sub[l];
          }
        }
      } else {
        PicksKeepOrder(sub, ms[1..], key);
      }
    }
  }

  /** The moves of ms that pass the legality test on pos, in order. */
  function Legal(o: Oracle, pos: Position, ms: seq<Move>): (r: seq<Move>)
    requires forall m | m in ms :: CaptureInRange(pos, m)
    ensures Picks(r, ms)
  {
    if ms == [] then []
    else if Safe(o, Edited(pos, ms[0]), ms[0]) then [ms[0]] + Legal(o, pos, ms[1..])
    else Legal(o, pos, ms[1..])
  }

  /**
   * Offering the moves of ms one after the other. The moves kept are some
   * of the offered ones, in their order, after the list as it was.
   */
  function OfferMoves(o: Oracle, g: Gen, ms: seq<Move>): (r: Gen)
    requires forall m | m in ms :: CaptureInRange(g.pos, m)
    ensures SameButColours(r.pos, g.pos)
    ensures |g.list| <= |r.list| && r.list[..|g.list|] == g.list
    ensures Picks(r.list[|g.list|..], ms)
    decreases |ms|
  {
    if ms == [] then
      assert g.list[|g.list|..] == [];
      g
    else
      var g1 := AddToMovelist(o, g, ms[0]);
      InRangeCarries(g1.pos, g.pos, ms);
      var r := OfferMoves(o, g1, ms[1..]);
      PicksExtend(g.list, g1.list, r.list, ms);
      r
  }

  /** The captured squares depend only on what `SameButColours` keeps. */
  lemma InRangeCarries(p: Position, q: Position, ms: seq<Move>)
    requires SameButColours(p, q) && |ms| > 0
    requires forall m | m in ms :: CaptureInRange(q, m)
    ensures forall m | m in ms[1..] :: CaptureInRange(p, m)
  {
    SameFrame(p, q);
    forall m | m in ms[1..]
      ensures CaptureInRange(p, m)
    {
      assert m in ms;
      assert CapturedSquare(p, m) == CapturedSquare(q, m);
    }
  }

  /** One offer followed by a run of the rest is a run of all of them. */
  lemma PicksExtend(l0: seq<Move>, l1: seq<Move>, l: seq<Move>, ms: seq<Move>)
    requires |ms| > 0 && (l1 == l0 + [ms[0]] || l1 == l0)
    requires |l1| <= |l| && l[..|l1|] == l1 && Picks(l[|l1|..], ms[1..])
    ensures |l0| <= |l| && l[..|l0|] == l0 && Picks(l[|l0|..], ms)
  {
    assert l[..|l0|] == l[..|l1|][..|l0|];
    if l1 == l0 + [ms[0]] {
      assert l[|l0|..] == [ms[0]] + l[|l1|..];
    }
  }

  /**
   * When every offered move puts the boards back, the position is left as
   * it was and exactly the moves that pass the legality test are appended.
   */
  lemma {:induction false} OfferMovesFilters(o: Oracle, g: Gen, ms: seq<Move>)
    requires forall m | m in ms :: CaptureInRange(g.pos, m) && Restores(g.pos, m)
    ensures OfferMoves(o, g, ms) == Gen(g.pos, g.list + Legal(o, g.pos, ms))
    decreases |ms|
  {
    if ms != [] {
      var g1 := AddToMovelist(o, g, ms[0]);
      var a, b := Legal(o, g.pos, [ms[0]]), Legal(o, g.pos, ms[1..]);
      OfferStep(o, g, ms);
      OfferMovesFilters(o, g1, ms[1..]);
      Chain(OfferMoves(o, g, ms), OfferMoves(o, g1, ms[1..]), g, g1, a, b, Legal(o, g.pos, ms));
    }
  }

  /**
   * Two steps that each leave the position and append a, then b, together
   * append a + b.
   */
  lemma Chain(r: Gen, r1: Gen, g: Gen, g1: Gen, a: seq<Move>, b: seq<Move>, e: seq<Move>)
    requires r == r1 && g1 == Gen(g.pos, g.list + a) && r1 == Gen(g1.pos, g1.list + b) && e == a + b
    ensures r == Gen(g.pos, g.list + e)
  {
    assert g.list + a + b == g.list + (a + b);
  }

  /** One step of `OfferMovesFilters`: the first move is filtered and the rest are offered on the same position. */
  lemma OfferStep(o: Oracle, g: Gen, ms: seq<Move>)
    requires forall m | m in ms :: CaptureInRange(g.pos, m) && Restores(g.pos, m)
    requires |ms| > 0
    ensures var g1 := AddToMovelist(o, g, ms[0]);
            && g1 == Gen(g.pos, g.list + Legal(o, g.pos, [ms[0]]))
            && (forall m | m in ms[1..] :: CaptureInRange(g1.pos, m) && Restores(g1.pos, m))
            && OfferMoves(o, g, ms) == OfferMoves(o, g1, ms[1..])
            && Legal(o, g.pos, ms) == Legal(o, g.pos, [ms[0]]) + Legal(o, g.pos, ms[1..])
  {
    AddFilters(o, g, ms[0]);
    assert forall m | m in ms[1..] :: m in ms;
    LegalUnfold(o, g.pos, ms);
  }

  /** The test keeps of a list what it keeps of its head, then of its tail. */
  lemma LegalUnfold(o: Oracle, pos: Position, ms: seq<Move>)
    requires forall m | m in ms :: CaptureInRange(pos, m)
    requires |ms| > 0
    ensures Legal(o, pos, ms) == Legal(o, pos, [ms[0]]) + Legal(o, pos, ms[1..])
  {
    var a := ms[0];
    assert [a][0] == a && [a][1..] == [];
    if Safe(o, Edited(pos, a), a) {
      assert Legal(o, pos, [a]) == [a];
    } else {
      assert Legal(o, pos, [a]) == [];
    }
  }

  /** One offered move that puts the boards back appends itself exactly when it passes the test. */
  lemma AddFilters(o: Oracle, g: Gen, m: Move)
    requires CaptureInRange(g.pos, m) && Restores(g.pos, m)
    ensures AddToMovelist(o, g, m) == Gen(g.pos, g.list + Legal(o, g.pos, [m]))
  {
    AddToMovelistRestores(o, g, m);
    assert [m][1..] == [];
  }

  // ---------------------------------------------------------------------
  // addPromosToMovelist
  // ---------------------------------------------------------------------

  /**
   * The four promotions of a pawn move, in the order they are offered:
   * knight, bishop, rook, queen (kinds 1 to 4).
   */
  function Promotions(from: int, to: int, capturePiece: int, turn: Colour, capture: bool): (ms: seq<Move>)
    ensures |ms| == 4
  {
    seq<Move>(4, k => PackMove(from, to, PAWN, KNIGHT + k, capturePiece, turn, capture))
  }

  /** The promotions share from, to and capture data and promote to N, B, R, Q in turn. */
  lemma PromotionsRead(from: int, to: int, capturePiece: int, turn: Colour, capture: bool)
    requires OnBoard(from) && OnBoard(to) && 0 <= capturePiece < 8
    ensures var ms := Promotions(from, to, capturePiece, turn, capture);
            forall k | 0 <= k < 4 ::
              From(ms[k]) == from && To(ms[k]) == to && MovingPiece(ms[k]) == PAWN
              && PromotedPiece(ms[k]) == KNIGHT + k && Promote(ms[k])
              && CapturePiece(ms[k]) == capturePiece && (Capture(ms[k]) <==> capture) && Turn(ms[k]) == turn
  {
    var ms := Promotions(from, to, capturePiece, turn, capture);
    forall k | 0 <= k < 4
      ensures From(ms[k]) == from && To(ms[k]) == to && MovingPiece(ms[k]) == PAWN
              && PromotedPiece(ms[k]) == KNIGHT + k && Promote(ms[k])
              && CapturePiece(ms[k]) == capturePiece && (Capture(ms[k]) <==> capture) && Turn(ms[k]) == turn
    {
      PromotionRead(from, to, KNIGHT + k, capturePiece, turn, capture);
    }
  }

  /** One promotion reads back what was packed. */
  lemma PromotionRead(from: int, to: int, promotePiece: int, capturePiece: int, turn: Colour, capture: bool)
    requires OnBoard(from) && OnBoard(to) && KNIGHT <= promotePiece <= QUEEN && 0 <= capturePiece < 8
    ensures var m := PackMove(from, to, PAWN, promotePiece, capturePiece, turn, capture);
            From(m) == from && To(m) == to && MovingPiece(m) == PAWN
            && PromotedPiece(m) == promotePiece && Promote(m)
            && CapturePiece(m) == capturePiece && (Capture(m) <==> capture) && Turn(m) == turn
  {
    assert FieldsFit(from, to, PAWN, promotePiece, capturePiece);
  }

  /** The capture piece `addPromosToMovelist` packs: looked up on `to` for a capture, else 0. */
  function PromotionCapture(o: Oracle, pos: Position, to: int, capture: bool): int
  {
    if capture then o.getPieceOnSquare(pos, to) else 0
  }

  /** Promotions that fit the move word promote to N, B, R, Q in turn and capture on `to`. */
  lemma PromotionKinds(from: int, to: int, capturePiece: int, turn: Colour, capture: bool)
    requires OnBoard(from) && OnBoard(to) && 0 <= capturePiece < 8
    ensures var ms := Promotions(from, to, capturePiece, turn, capture);
            (forall k | 0 <= k < 4 :: PromotedPiece(ms[k]) == KNIGHT + k)
            && forall m | m in ms :: To(m) == to && (Capture(m) <==> capture)
  {
    PromotionsRead(from, to, capturePiece, turn, capture);
  }

  /**
   * `addPromosToMovelist`: the four promotions, each through the legality
   * filter. Those kept follow the list as it was, promoting to ever
   * stronger pieces.
   */
  function AddPromos(o: Oracle, g: Gen, from: int, to: int, turn: Colour, capture: bool): (r: Gen)
    requires OnBoard(from) && OnBoard(to) && PieceFits(o)
    requires capture ==> Victim(g.pos, to) <= 63
    ensures SameButColours(r.pos, g.pos)
    ensures |g.list| <= |r.list| <= |g.list| + 4 && r.list[..|g.list|] == g.list
    ensures Picks(r.list[|g.list|..], Promotions(from, to, PromotionCapture(o, g.pos, to, capture), turn, capture))
    ensures forall k | |g.list| <= k < |r.list| ::
              r.list[k] in Promotions(from, to, PromotionCapture(o, g.pos, to, capture), turn, capture)
    ensures forall k, l | |g.list| <= k < l < |r.list| :: PromotedPiece(r.list[k]) < PromotedPiece(r.list[l])
  {
    var ms := Promotions(from, to, PromotionCapture(o, g.pos, to, capture), turn, capture);
    PromotionKinds(from, to, PromotionCapture(o, g.pos, to, capture), turn, capture);
    assert forall m | m in ms :: CaptureInRange(g.pos, m);
    var r := OfferMoves(o, g, ms);
    OfferedInOrder(g.list, r.list, ms, PromotedPiece);
    r
  }

  /** The tail a run of offers adds, read back in the list's own indices. */
  lemma OfferedInOrder(before: seq<Move>, after: seq<Move>, ms: seq<Move>, key: Move -> int)
    requires |before| <= |after| && Picks(after[|before|..], ms)
    requires forall k, l | 0 <= k < l < |ms| :: key(ms[k]) < key(ms[l])
    ensures |after| <= |before| + |ms|
    ensures forall k | |before| <= k < |after| :: after[k] in ms
    ensures forall k, l | |before| <= k < l < |after| :: key(after[k]) < key(after[l])
  {
    var added := after[|before|..];
    PicksAreOffered(added, ms);
    PicksKeepOrder(added, ms, key);
    PicksLength(added, ms);
    assert forall k | |before| <= k < |after| :: after[k] == added[k - |before|];
  }

  /** A picked sequence is no longer than the offered one. */
  lemma {:induction false} PicksLength(sub: seq<Move>, ms: seq<Move>)
    requires Picks(sub, ms)
    ensures |sub| <= |ms|
    decreases |ms|
  {
    if sub != [] {
      if sub[0] == ms[0] && Picks(sub[1..], ms[1..]) {
        PicksLength(sub[1..], ms[1..]);
      } else {
        PicksLength(sub, ms[1..]);
      }
    }
  }

  /**
   * When the promotions put the boards back, they are all tested on the
   * same edited position, so all four are appended or none.
   */
  lemma PromotionsAllOrNone(o: Oracle, g: Gen, from: int, to: int, turn: Colour, capture: bool)
    requires OnBoard(from) && OnBoard(to) && PieceFits(o)
    requires (capture ==> Victim(g.pos, to) <= 63) && Undoes(g.pos, from, to, capture)
    ensures var ms := Promotions(from, to, PromotionCapture(o, g.pos, to, capture), turn, capture);
            var r := AddPromos(o, g, from, to, turn, capture);
            r.pos == g.pos
            && r.list == g.list + (if Safe(o, Edited(g.pos, ms[0]), ms[0]) then ms else [])
  {
    var ms := Promotions(from, to, PromotionCapture(o, g.pos, to, capture), turn, capture);
    PromotionsAlike(o, g.pos, from, to, PromotionCapture(o, g.pos, to, capture), turn, capture);
    OfferMovesFilters(o, g, ms);
    LegalAllOrNone(o, g.pos, ms, Safe(o, Edited(g.pos, ms[0]), ms[0]));
  }

  /** The four promotions restore the boards alike and pass or fail the test alike. */
  lemma PromotionsAlike(o: Oracle, pos: Position, from: int, to: int, capturePiece: int, turn: Colour, capture: bool)
    requires OnBoard(from) && OnBoard(to) && 0 <= capturePiece < 8
    requires (capture ==> Victim(pos, to) <= 63) && Undoes(pos, from, to, capture)
    ensures var ms := Promotions(from, to, capturePiece, turn, capture);
            forall m | m in ms :: CaptureInRange(pos, m) && Restores(pos, m)
              && Safe(o, Edited(pos, m), m) == Safe(o, Edited(pos, ms[0]), ms[0])
  {
    var ms := Promotions(from, to, capturePiece, turn, capture);
    PromotionsRead(from, to, capturePiece, turn, capture);
    forall m | m in ms
      ensures CaptureInRange(pos, m) && Restores(pos, m)
      ensures Safe(o, Edited(pos, m), m) == Safe(o, Edited(pos, ms[0]), ms[0])
    {
      SameEdit(pos, ms[0], m);
    }
  }

  /** When every move passes or fails alike, the filter keeps all or none. */
  lemma {:induction false} LegalAllOrNone(o: Oracle, pos: Position, ms: seq<Move>, safe: bool)
    requires forall m | m in ms :: CaptureInRange(pos, m) && Safe(o, Edited(pos, m), m) == safe
    ensures Legal(o, pos, ms) == if safe then ms else []
    decreases |ms|
  {
    if ms != [] {
      LegalAllOrNone(o, pos, ms[1..], safe);
    }
  }

  /** Moves that agree on from, to and the capture flag edit the boards alike. */
  lemma SameEdit(pos: Position, m: Move, n: Move)
    requires CaptureInRange(pos, m) && CaptureInRange(pos, n)
    requires From(m) == From(n) && To(m) == To(n) && Capture(m) == Capture(n)
    ensures Edited(pos, m) == Edited(pos, n)
  {
    var e, f := Edited(pos, m), Edited(pos, n);
    assert e.Colours(pos.toMove) == f.Colours(pos.toMove);
    assert e.Colours(Opponent(pos.toMove)) == f.Colours(Opponent(pos.toMove));
    if pos.toMove == WHITE {
      assert e.white == f.white && e.black == f.black;
    } else {
      assert e.white == f.white && e.black == f.black;
    }
  }
}
