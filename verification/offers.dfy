/**
 * The steps of the move generator. The generator reads its boards once and
 * then works through a fixed sequence of steps, each offering one move, the
 * four promotions of one pawn move, or the castles. A step reads the
 * position as it stands when it runs: the captured piece is looked up and
 * the king's safety tested on the position the earlier steps left behind.
 */
module Offers {
  import opened Bitboards
  import opened Pieces
  import opened Positions
  import opened Moves
  import opened Oracles
  import opened MoveLists
  import opened Castling

  /** One step of the generator. `from` is the moving piece's square (for castles, the king's). */
  datatype Offer =
    | Quiet(from: int, to: int, piece: Kind)          // a move onto an empty square
    | Take(from: int, to: int, piece: Kind)           // a capture; the victim's kind is looked up
    | TakeEnPassant(from: int, to: int)               // a pawn capture onto the en-passant square
    | Promotion(from: int, to: int, capture: bool)    // `addPromosToMovelist`
    | Castles(from: int, occupied: Bitboard)          // the castling block

  /** The squares an offer names are on the board. */
  predicate OnBoardOffer(x: Offer)
  {
    OnBoard(x.from) && (!x.Castles? ==> OnBoard(x.to))
  }

  /**
   * The en-passant square can be set in a board and, for white, has a
   * square below it: the captured square of every capture is at most 63.
   */
  predicate EpInRange(pos: Position)
  {
    pos.enpassant <= 63 && (pos.toMove == WHITE ==> pos.enpassant <= 55)
  }

  lemma VictimInRange(pos: Position, to: int)
    requires EpInRange(pos) && OnBoard(to)
    ensures Victim(pos, to) <= 63
  {
  }

  /** Whether the offer's moves capture. */
  function Captures(x: Offer): bool
  {
    match x
    case Quiet(_, _, _) => false
    case Take(_, _, _) => true
    case TakeEnPassant(_, _) => true
    case Promotion(_, _, capture) => capture
    case Castles(_, _) => false
  }

  /** The move a single-move step packs, on the position it runs on. */
  function Single(o: Oracle, pos: Position, x: Offer): Move
    requires x.Quiet? || x.Take? || x.TakeEnPassant?
  {
    var c := pos.toMove;
    match x
    case Quiet(from, to, piece) => PackMove(from, to, piece, 0, 0, c, false)
    case Take(from, to, piece) => PackMove(from, to, piece, 0, o.getPieceOnSquare(pos, to), c, true)
    case TakeEnPassant(from, to) => PackMove(from, to, PAWN, 0, PAWN, c, true)
  }

  /** The moves a step puts forward, on the position it runs on. */
  function Packed(o: Oracle, pos: Position, x: Offer): seq<Move>
  {
    match x
    case Promotion(from, to, capture) =>
      Promotions(from, to, PromotionCapture(o, pos, to, capture), pos.toMove, capture)
    case Castles(king, occupied) => CastleMoves(o, pos, king, occupied)
    case _ => [Single(o, pos, x)]
  }

  /** Every packed move reads back the offer's from square and the side to move. */
  lemma PackedReads(o: Oracle, pos: Position, x: Offer)
    requires OnBoardOffer(x) && PieceFits(o)
    ensures forall m | m in Packed(o, pos, x) ::
              From(m) == x.from && Turn(m) == pos.toMove && (Capture(m) <==> Captures(x))
              && (!x.Castles? ==> To(m) == x.to)
  {
    if x.Promotion? {
      PromotionsRead(x.from, x.to, PromotionCapture(o, pos, x.to, x.capture), pos.toMove, x.capture);
    } else if x.Castles? {
      CastlesRead(o, pos, x.from, x.occupied);
    } else {
      SingleReads(o, pos, x);
    }
  }

  lemma SingleReads(o: Oracle, pos: Position, x: Offer)
    requires (x.Quiet? || x.Take? || x.TakeEnPassant?) && OnBoardOffer(x) && PieceFits(o)
    ensures var m := Single(o, pos, x);
            From(m) == x.from && To(m) == x.to && Turn(m) == pos.toMove && (Capture(m) <==> Captures(x))
  {
    var capturePiece := if x.Take? then o.getPieceOnSquare(pos, x.to) else if x.TakeEnPassant? then PAWN else 0;
    var piece := if x.TakeEnPassant? then PAWN else x.piece;
    assert Single(o, pos, x) == PackMove(x.from, x.to, piece, 0, capturePiece, pos.toMove, Captures(x));
    assert FieldsFit(x.from, x.to, piece, 0, capturePiece);
  }

  lemma CastlesRead(o: Oracle, pos: Position, king: int, occupied: Bitboard)
    requires OnBoard(king)
    ensures forall m | m in CastleMoves(o, pos, king, occupied) ::
              From(m) == king && Turn(m) == pos.toMove && !Capture(m)
  {
    CastleMovesAre(o, pos, king, occupied);
    CastleMoveRead(pos, king, true);
    CastleMoveRead(pos, king, false);
  }

  lemma CastleMovesAre(o: Oracle, pos: Position, king: int, occupied: Bitboard)
    ensures forall m | m in CastleMoves(o, pos, king, occupied) ::
              m == CastleMove(pos, king, true) || m == CastleMove(pos, king, false)
  {
  }

  lemma CastleMoveRead(pos: Position, king: int, side: bool)
    requires OnBoard(king)
    ensures var m := CastleMove(pos, king, side);
            From(m) == king && To(m) == CastleTarget(pos.toMove, side) && Turn(m) == pos.toMove && !Capture(m)
  {
    assert FieldsFit(king, CastleTarget(pos.toMove, side), KING, 0, 0);
  }

  /** Runs one step. */
  function Perform(o: Oracle, g: Gen, x: Offer): (r: Gen)
    requires OnBoardOffer(x) && EpInRange(g.pos) && PieceFits(o)
    ensures SameButColours(r.pos, g.pos)
    ensures |g.list| <= |r.list| && r.list[..|g.list|] == g.list
    ensures Picks(r.list[|g.list|..], Packed(o, g.pos, x))
  {
    match x
    case Promotion(from, to, capture) =>
      VictimInRange(g.pos, to);
      AddPromos(o, g, from, to, g.pos.toMove, capture)
    case Castles(king, occupied) =>
      PicksAll(CastleMoves(o, g.pos, king, occupied));
      Castle(o, g, king, occupied)
    case _ => PerformSingle(o, g, x)
  }

  /** A single-move step: the move through `addToMovelist`. */
  function PerformSingle(o: Oracle, g: Gen, x: Offer): (r: Gen)
    requires (x.Quiet? || x.Take? || x.TakeEnPassant?) && OnBoardOffer(x) && EpInRange(g.pos) && PieceFits(o)
    ensures SameButColours(r.pos, g.pos)
    ensures |g.list| <= |r.list| && r.list[..|g.list|] == g.list
    ensures Picks(r.list[|g.list|..], [Single(o, g.pos, x)])
  {
    var m := Single(o, g.pos, x);
    SingleReads(o, g.pos, x);
    VictimInRange(g.pos, x.to);
    var r := AddToMovelist(o, g, m);
    OneOffered(g.list, r.list, m);
    r
  }

  lemma OneOffered(before: seq<Move>, after: seq<Move>, m: Move)
    requires after == before + [m] || after == before
    ensures |before| <= |after| && after[..|before|] == before
    ensures Picks(after[|before|..], [m])
  {
    assert after[..|before|] == before;
    assert after[|before|..] == [m] || after[|before|..] == [];
  }

  // ---------------------------------------------------------------------
  // Runs of steps
  // ---------------------------------------------------------------------

  /** The squares the steps move from. */
  function Froms(xs: seq<Offer>): set<int>
  {
    set x | x in xs :: x.from
  }

  /** Every move of ms is c's and starts on one of the squares froms. */
  predicate MovesFrom(ms: seq<Move>, froms: set<int>, c: Colour)
  {
    forall k | 0 <= k < |ms| :: Turn(ms[k]) == c && From(ms[k]) in froms
  }

  /** Runs the steps in order; the list only grows. */
  function Run(o: Oracle, g: Gen, xs: seq<Offer>): (r: Gen)
    requires EpInRange(g.pos) && PieceFits(o) && forall x | x in xs :: OnBoardOffer(x)
    ensures SameButColours(r.pos, g.pos)
    ensures |g.list| <= |r.list| && r.list[..|g.list|] == g.list
    decreases |xs|
  {
    if xs == [] then
      assert g.list[..|g.list|] == g.list;
      g
    else
      var g1 := Perform(o, g, xs[0]);
      SameFrame(g1.pos, g.pos);
      assert forall x | x in xs[1..] :: x in xs;
      var r := Run(o, g1, xs[1..]);
      assert r.list[..|g.list|] == r.list[..|g1.list|][..|g.list|];
      r
  }

  /** Every move a run adds is a move of the side to move from one of the steps' squares. */
  lemma {:induction false} RunMovesFrom(o: Oracle, g: Gen, xs: seq<Offer>)
    requires EpInRange(g.pos) && PieceFits(o) && forall x | x in xs :: OnBoardOffer(x)
    ensures var r := Run(o, g, xs);
            MovesFrom(r.list[|g.list|..], Froms(xs), g.pos.toMove)
    decreases |xs|
  {
    if xs != [] {
      var g1 := Perform(o, g, xs[0]);
      RunUnfold(o, g, xs);
      RunMovesFrom(o, g1, xs[1..]);
      SameFrame(g1.pos, g.pos);
      StepMovesFrom(o, g, g1, Run(o, g1, xs[1..]), xs);
    }
  }

  /** The moves of one step followed by those of the rest. */
  lemma StepMovesFrom(o: Oracle, g: Gen, g1: Gen, r: Gen, xs: seq<Offer>)
    requires |xs| > 0 && OnBoardOffer(xs[0]) && PieceFits(o) && g1.pos.toMove == g.pos.toMove
    requires |g.list| <= |g1.list| && g1.list[..|g.list|] == g.list
    requires Picks(g1.list[|g.list|..], Packed(o, g.pos, xs[0]))
    requires |g1.list| <= |r.list| && r.list[..|g1.list|] == g1.list
    requires MovesFrom(r.list[|g1.list|..], Froms(xs[1..]), g.pos.toMove)
    ensures |g.list| <= |r.list| && r.list[..|g.list|] == g.list
    ensures MovesFrom(r.list[|g.list|..], Froms(xs), g.pos.toMove)
  {
    var added, rest := g1.list[|g.list|..], r.list[|g1.list|..];
    ListSplit(g.list, g1.list, r.list);
    assert MovesFrom(added, {xs[0].from}, g.pos.toMove) by {
      AddedFrom(o, g.pos, xs[0], added);
    }
    assert {xs[0].from} <= Froms(xs) && Froms(xs[1..]) <= Froms(xs) by {
      assert xs[0] in xs;
      assert forall x | x in xs[1..] :: x in xs;
    }
    MovesFromAppend(added, rest, {xs[0].from}, Froms(xs[1..]), Froms(xs), g.pos.toMove);
  }

  /** A list that extends a list that extends a third extends the third by both additions. */
  lemma ListSplit(a: seq<Move>, b: seq<Move>, c: seq<Move>)
    requires |a| <= |b| && b[..|a|] == a && |b| <= |c| && c[..|b|] == b
    ensures |a| <= |c| && c[..|a|] == a && c[|a|..] == b[|a|..] + c[|b|..]
  {
    assert c[..|a|] == c[..|b|][..|a|];
  }

  /** The moves one step adds come from its square, for the side to move. */
  lemma AddedFrom(o: Oracle, pos: Position, x: Offer, added: seq<Move>)
    requires OnBoardOffer(x) && PieceFits(o) && Picks(added, Packed(o, pos, x))
    ensures MovesFrom(added, {x.from}, pos.toMove)
  {
    PicksAreOffered(added, Packed(o, pos, x));
    PackedReads(o, pos, x);
    assert forall k | 0 <= k < |added| :: added[k] in added;
  }

  /** Two runs of moves from squares in a set, one after the other. */
  lemma MovesFromAppend(a: seq<Move>, b: seq<Move>, fa: set<int>, fb: set<int>, froms: set<int>, c: Colour)
    requires MovesFrom(a, fa, c) && MovesFrom(b, fb, c) && fa <= froms && fb <= froms
    ensures MovesFrom(a + b, froms, c)
  {
    forall k | 0 <= k < |a + b|
      ensures Turn((a + b)[k]) == c && From((a + b)[k]) in froms
    {
      if k < |a| {
        assert (a + b)[k] == a[k];
      } else {
        assert (a + b)[k] == b[k - |a|];
      }
    }
  }

  // ---------------------------------------------------------------------
  // The filter, when every move puts the boards back
  // ---------------------------------------------------------------------

  /** A step puts the boards back: castles never touch them, other moves by `Undoes`. */
  predicate Undone(pos: Position, x: Offer)
  {
    x.Castles? || Undoes(pos, x.from, x.to, Captures(x))
  }

  /** What a step adds when its moves put the boards back: the moves that pass the test, or the castles. */
  function Kept(o: Oracle, pos: Position, x: Offer): seq<Move>
    requires OnBoardOffer(x) && EpInRange(pos) && PieceFits(o)
  {
    PackedReads(o, pos, x);
    if x.Castles? then Packed(o, pos, x)
    else
      VictimInRange(pos, x.to);
      Legal(o, pos, Packed(o, pos, x))
  }

  /** The moves the steps add, one step after the other. */
  function Expected(o: Oracle, pos: Position, xs: seq<Offer>): seq<Move>
    requires EpInRange(pos) && PieceFits(o) && forall x | x in xs :: OnBoardOffer(x)
    decreases |xs|
  {
    if xs == [] then [] else Kept(o, pos, xs[0]) + Expected(o, pos, xs[1..])
  }

  /** A step that puts the boards back leaves the position and adds its kept moves. */
  lemma PerformFilters(o: Oracle, g: Gen, x: Offer)
    requires OnBoardOffer(x) && EpInRange(g.pos) && PieceFits(o) && Undone(g.pos, x)
    ensures Perform(o, g, x) == Gen(g.pos, g.list + Kept(o, g.pos, x))
  {
    match x
    case Promotion(from, to, capture) =>
      VictimInRange(g.pos, to);
      PromotionsAlike(o, g.pos, from, to, PromotionCapture(o, g.pos, to, capture), g.pos.toMove, capture);
      OfferMovesFilters(o, g, Packed(o, g.pos, x));
    case Castles(_, _) =>
    case _ =>
      SingleFilters(o, g, x);
  }

  lemma SingleFilters(o: Oracle, g: Gen, x: Offer)
    requires (x.Quiet? || x.Take? || x.TakeEnPassant?) && OnBoardOffer(x) && EpInRange(g.pos) && PieceFits(o)
    requires Undone(g.pos, x)
    ensures PerformSingle(o, g, x) == Gen(g.pos, g.list + Kept(o, g.pos, x))
  {
    var m := Single(o, g.pos, x);
    SingleParts(o, g, x);
    SingleRestores(o, g.pos, x);
    AddFilters(o, g, m);
  }

  lemma SingleRestores(o: Oracle, pos: Position, x: Offer)
    requires (x.Quiet? || x.Take? || x.TakeEnPassant?) && OnBoardOffer(x) && PieceFits(o) && Undone(pos, x)
    ensures Restores(pos, Single(o, pos, x))
  {
    SingleReads(o, pos, x);
  }

  /** A single-move step is `addToMovelist` of its move, and keeps what the test keeps of it. */
  lemma SingleParts(o: Oracle, g: Gen, x: Offer)
    requires (x.Quiet? || x.Take? || x.TakeEnPassant?) && OnBoardOffer(x) && EpInRange(g.pos) && PieceFits(o)
    ensures var m := Single(o, g.pos, x);
            CaptureInRange(g.pos, m)
            && PerformSingle(o, g, x) == AddToMovelist(o, g, m)
            && Kept(o, g.pos, x) == Legal(o, g.pos, [m])
  {
    SingleReads(o, g.pos, x);
    VictimInRange(g.pos, x.to);
  }

  /**
   * When every step puts the boards back, a run leaves the position as it
   * was and adds exactly the kept moves of each step, in order.
   */
  lemma {:induction false} RunFilters(o: Oracle, g: Gen, xs: seq<Offer>)
    requires EpInRange(g.pos) && PieceFits(o) && forall x | x in xs :: OnBoardOffer(x) && Undone(g.pos, x)
    ensures Run(o, g, xs) == Gen(g.pos, g.list + Expected(o, g.pos, xs))
    decreases |xs|
  {
    if xs != [] {
      var g1 := Perform(o, g, xs[0]);
      var a, b := Kept(o, g.pos, xs[0]), Expected(o, g.pos, xs[1..]);
      FilterStep(o, g, xs);
      RunFilters(o, g1, xs[1..]);
      Chain(Run(o, g, xs), Run(o, g1, xs[1..]), g, g1, a, b, Expected(o, g.pos, xs));
    }
  }

  /** What one step of `RunFilters` needs: the first offer is filtered and the rest still put the boards back. */
  lemma FilterStep(o: Oracle, g: Gen, xs: seq<Offer>)
    requires EpInRange(g.pos) && PieceFits(o) && forall x | x in xs :: OnBoardOffer(x) && Undone(g.pos, x)
    requires |xs| > 0
    ensures var g1 := Perform(o, g, xs[0]);
            && g1 == Gen(g.pos, g.list + Kept(o, g.pos, xs[0]))
            && EpInRange(g1.pos) && (forall x | x in xs[1..] :: OnBoardOffer(x) && Undone(g1.pos, x))
            && Run(o, g, xs) == Run(o, g1, xs[1..])
            && Expected(o, g.pos, xs) == Kept(o, g.pos, xs[0]) + Expected(o, g.pos, xs[1..])
  {
    PerformFilters(o, g, xs[0]);
    RunUnfold(o, g, xs);
    assert forall x | x in xs[1..] :: x in xs;
  }

  /** A run is its first step followed by the run of the rest. */
  lemma RunUnfold(o: Oracle, g: Gen, xs: seq<Offer>)
    requires EpInRange(g.pos) && PieceFits(o) && forall x | x in xs :: OnBoardOffer(x)
    requires |xs| > 0
    ensures var g1 := Perform(o, g, xs[0]);
            EpInRange(g1.pos) && (forall x | x in xs[1..] :: OnBoardOffer(x))
            && Run(o, g, xs) == Run(o, g1, xs[1..])
            && Expected(o, g.pos, xs) == Kept(o, g.pos, xs[0]) + Expected(o, g.pos, xs[1..])
  {
    var g1 := Perform(o, g, xs[0]);
    SameFrame(g1.pos, g.pos);
    assert forall x | x in xs[1..] :: x in xs;
  }
}
