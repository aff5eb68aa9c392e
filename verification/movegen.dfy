/**
 * `movegen`: the steps the generator takes for a position, piece by piece
 * in the source's order (pawns, knights, the king, the castling block,
 * bishops, rooks, queens), and the run of those steps through
 * `addToMovelist`, `addPromosToMovelist` and the castling block.
 *
 * Every offer is characterised in board terms (`Offered`): which squares a
 * pawn pushes to and captures on, which a knight or king jumps to, which a
 * slider sees along its directions. The generated list is then what the
 * legality test keeps of those offers, in order.
 */
module MoveGeneration {
  import opened Bitboards
  import opened Notation
  import opened Pieces
  import opened Tables
  import opened Positions
  import opened Moves
  import opened Oracles
  import opened Blockers
  import opened MoveLists
  import opened Castling
  import opened Offers
  import opened Sliders

  /** `occupied`: both colours' pieces, read once at the start. */
  function Occupancy(pos: Position): Bitboard
  {
    pos.white + pos.black
  }

  /** `pieces`: the side to move's pieces. */
  function Own(pos: Position): Bitboard
  {
    pos.Colours(pos.toMove)
  }

  /** `opponentPieces`. */
  function Theirs(pos: Position): Bitboard
  {
    pos.Colours(Opponent(pos.toMove))
  }

  lemma SidesOccupy(pos: Position)
    ensures Own(pos) <= Occupancy(pos) && Theirs(pos) <= Occupancy(pos)
    ensures Occupancy(pos) == Own(pos) + Theirs(pos)
  {
  }

  // ---------------------------------------------------------------------
  // Pawns
  // ---------------------------------------------------------------------

  /** The rank on which a pawn of colour c promotes. */
  function LastRank(c: Colour): int
  {
    if c == WHITE then 8 else 1
  }

  /**
   * The push board: the table entry less the occupied squares, with the
   * double step cleared when the single-step square is occupied.
   */
  function PawnPushes(c: Colour, from: int, occupied: Bitboard): Bitboard
    requires OnBoard(from)
  {
    var moves := PawnMoves(c, from) - occupied;
    if c == WHITE && Rank(from) == 2 && !CheckBit(moves, from - 8) then ClearBit(moves, from - 16)
    else if c == BLACK && Rank(from) == 7 && !CheckBit(moves, from + 8) then ClearBit(moves, from + 16)
    else moves
  }

  /**
   * A push target in board terms: straight ahead, empty, one rank on, or
   * two ranks on from the home rank when the square in between is empty.
   */
  predicate PushSquare(c: Colour, from: int, occupied: Bitboard, j: int)
    requires OnBoard(from)
  {
    OnBoard(j) && File(j) == File(from) && j !in occupied
    && (Rank(j) == Rank(from) + Forward(c)
        || (Rank(from) == HomeRank(c) && Rank(j) == Rank(from) + 2 * Forward(c)
            && from - 8 * Forward(c) !in occupied))
  }

  /** The push board is exactly the push targets: a double step is dropped when the square it jumps is occupied. */
  lemma PawnPushesAre(c: Colour, from: int, occupied: Bitboard)
    requires OnBoard(from)
    ensures forall j :: j in PawnPushes(c, from, occupied) <==> PushSquare(c, from, occupied, j)
  {
    forall j | OnBoard(j) {
      Displacement(from, j);
    }
    var single := from - 8 * Forward(c);
    if Rank(from) == HomeRank(c) {
      assert OnBoard(single) && File(single) == File(from) && Rank(single) == Rank(from) + Forward(c);
    }
  }

  /** The capture board: the attack table entry, against opponent pieces and the en-passant square. */
  function PawnCaptures(pos: Position, from: int): Bitboard
    requires OnBoard(from) && EpInRange(pos)
  {
    PawnAttacks(pos.toMove, from) * SetBit(Theirs(pos), pos.enpassant)
  }

  /** A capture target in board terms: diagonally forward, onto an opponent piece or the en-passant square. */
  predicate CaptureSquare(pos: Position, from: int, j: int)
    requires OnBoard(from)
  {
    OnBoard(j) && Rank(j) == Rank(from) + Forward(pos.toMove) && Abs(File(j) - File(from)) == 1
    && (j in Theirs(pos) || j == pos.enpassant)
  }

  lemma PawnCapturesAre(pos: Position, from: int)
    requires OnBoard(from) && EpInRange(pos)
    ensures forall j :: j in PawnCaptures(pos, from) <==> CaptureSquare(pos, from, j)
  {
    var b := SetBit(Theirs(pos), pos.enpassant);
    assert forall j | OnBoard(j) :: j in b <==> j == pos.enpassant || j in Theirs(pos) by {
      forall j | OnBoard(j)
        ensures j in b <==> j == pos.enpassant || j in Theirs(pos)
      {
        assert CheckBit(b, j) <==> j == pos.enpassant || CheckBit(Theirs(pos), j);
      }
    }
  }

  /** A push: a promotion onto the last rank, a quiet pawn move otherwise. */
  function PushOffer(c: Colour, from: int, to: int): Offer
    requires OnBoard(to)
  {
    if Rank(to) == LastRank(c) then Promotion(from, to, false) else Quiet(from, to, PAWN)
  }

  /** A pawn capture: promotions on the last rank, else en passant onto that square, else a plain capture. */
  function CaptureOffer(pos: Position, from: int, to: int): Offer
    requires OnBoard(to)
  {
    if Rank(to) == LastRank(pos.toMove) then Promotion(from, to, true)
    else if to == pos.enpassant then TakeEnPassant(from, to)
    else Take(from, to, PAWN)
  }

  /** The offers for each square of `targets`, in square order, as `PushOffer` shapes them. */
  function PushOffers(c: Colour, from: int, targets: Bitboard): seq<Offer>
  {
    var tos := ForEachBit(targets);
    seq(|tos|, k requires 0 <= k < |tos| => PushOffer(c, from, tos[k]))
  }

  lemma PushOffersAre(c: Colour, from: int, targets: Bitboard)
    ensures forall x :: x in PushOffers(c, from, targets) <==> exists j | j in targets :: x == PushOffer(c, from, j)
  {
    var tos := ForEachBit(targets);
    forall x | x in PushOffers(c, from, targets)
      ensures exists j | j in targets :: x == PushOffer(c, from, j)
    {
      var k :| 0 <= k < |tos| && PushOffers(c, from, targets)[k] == x;
      assert tos[k] in tos;
    }
    forall j | j in targets
      ensures PushOffer(c, from, j) in PushOffers(c, from, targets)
    {
      var k :| 0 <= k < |tos| && tos[k] == j;
      assert PushOffers(c, from, targets)[k] == PushOffer(c, from, j);
    }
  }

  /** The offers for each square of `targets`, in square order, as `CaptureOffer` shapes them. */
  function CaptureOffers(pos: Position, from: int, targets: Bitboard): seq<Offer>
  {
    var tos := ForEachBit(targets);
    seq(|tos|, k requires 0 <= k < |tos| => CaptureOffer(pos, from, tos[k]))
  }

  lemma CaptureOffersAre(pos: Position, from: int, targets: Bitboard)
    ensures forall x :: x in CaptureOffers(pos, from, targets) <==> exists j | j in targets :: x == CaptureOffer(pos, from, j)
  {
    var tos := ForEachBit(targets);
    forall x | x in CaptureOffers(pos, from, targets)
      ensures exists j | j in targets :: x == CaptureOffer(pos, from, j)
    {
      var k :| 0 <= k < |tos| && CaptureOffers(pos, from, targets)[k] == x;
      assert tos[k] in tos;
    }
    forall j | j in targets
      ensures CaptureOffer(pos, from, j) in CaptureOffers(pos, from, targets)
    {
      var k :| 0 <= k < |tos| && tos[k] == j;
      assert CaptureOffers(pos, from, targets)[k] == CaptureOffer(pos, from, j);
    }
  }

  /** The pawn loop body: the pushes in square order, then the captures in square order. */
  function PawnOffers(pos: Position, from: int): seq<Offer>
    requires OnBoard(from) && EpInRange(pos)
  {
    PushOffers(pos.toMove, from, PawnPushes(pos.toMove, from, Occupancy(pos)))
    + CaptureOffers(pos, from, PawnCaptures(pos, from))
  }

  /** A pawn push in board terms, promoting exactly on the last rank. */
  predicate PawnPush(pos: Position, from: int, x: Offer)
    requires OnBoard(from)
  {
    ((x.Quiet? && x.piece == PAWN) || (x.Promotion? && !x.capture)) && x.from == from
    && PushSquare(pos.toMove, from, Occupancy(pos), x.to)
    && (x.Promotion? <==> Rank(x.to) == LastRank(pos.toMove))
  }

  /**
   * A pawn capture in board terms: promotions on the last rank; elsewhere
   * en passant exactly when the target is the en-passant square.
   */
  predicate PawnCapture(pos: Position, from: int, x: Offer)
    requires OnBoard(from)
  {
    ((x.Take? && x.piece == PAWN) || x.TakeEnPassant? || (x.Promotion? && x.capture)) && x.from == from
    && CaptureSquare(pos, from, x.to)
    && (x.Promotion? <==> Rank(x.to) == LastRank(pos.toMove))
    && (x.TakeEnPassant? <==> Rank(x.to) != LastRank(pos.toMove) && x.to == pos.enpassant)
  }

  /** The pawn loop offers exactly the pushes and captures of the pawn on `from`. */
  lemma PawnOffersAre(pos: Position, from: int)
    requires OnBoard(from) && EpInRange(pos)
    ensures forall x :: x in PawnOffers(pos, from) <==> PawnPush(pos, from, x) || PawnCapture(pos, from, x)
  {
    PawnPushOffers(pos, from);
    PawnCaptureOffers(pos, from);
  }

  lemma PawnPushOffers(pos: Position, from: int)
    requires OnBoard(from)
    ensures forall x :: x in PushOffers(pos.toMove, from, PawnPushes(pos.toMove, from, Occupancy(pos))) <==> PawnPush(pos, from, x)
  {
    var c := pos.toMove;
    var pushes := PawnPushes(c, from, Occupancy(pos));
    PushOffersAre(c, from, pushes);
    PawnPushesAre(c, from, Occupancy(pos));
    forall x | PawnPush(pos, from, x)
      ensures x == PushOffer(c, from, x.to)
    {
    }
  }

  lemma PawnCaptureOffers(pos: Position, from: int)
    requires OnBoard(from) && EpInRange(pos)
    ensures forall x :: x in CaptureOffers(pos, from, PawnCaptures(pos, from)) <==> PawnCapture(pos, from, x)
  {
    var captures := PawnCaptures(pos, from);
    CaptureOffersAre(pos, from, captures);
    PawnCapturesAre(pos, from);
    forall x | PawnCapture(pos, from, x)
      ensures x == CaptureOffer(pos, from, x.to)
    {
    }
  }

  // ---------------------------------------------------------------------
  // Knights and the king
  // ---------------------------------------------------------------------

  /** A knight or king move: a capture onto an opponent piece, a quiet move otherwise. */
  function StepOffer(from: int, to: int, kind: Kind, opp: Bitboard): Offer
  {
    if to in opp then Take(from, to, kind) else Quiet(from, to, kind)
  }

  /** The offers for each square of `targets`, in square order. */
  function StepOffers(from: int, kind: Kind, targets: Bitboard, opp: Bitboard): seq<Offer>
  {
    var tos := ForEachBit(targets);
    seq(|tos|, k requires 0 <= k < |tos| => StepOffer(from, tos[k], kind, opp))
  }

  lemma StepOffersAre(from: int, kind: Kind, targets: Bitboard, opp: Bitboard)
    ensures forall x :: x in StepOffers(from, kind, targets, opp) <==>
              (x.Quiet? || x.Take?) && x.from == from && x.piece == kind && x.to in targets && (x.Take? <==> x.to in opp)
  {
    var tos := ForEachBit(targets);
    forall x | x in StepOffers(from, kind, targets, opp)
      ensures x.to in targets && x == StepOffer(from, x.to, kind, opp)
    {
      var k :| 0 <= k < |tos| && StepOffers(from, kind, targets, opp)[k] == x;
      assert tos[k] in tos;
    }
    forall j | j in targets
      ensures StepOffer(from, j, kind, opp) in StepOffers(from, kind, targets, opp)
    {
      var k :| 0 <= k < |tos| && tos[k] == j;
      assert StepOffers(from, kind, targets, opp)[k] == StepOffer(from, j, kind, opp);
    }
  }

  /** The table entry of a knight or king: the squares it steps to on an empty board. */
  function StepTable(kind: Kind, from: int): Bitboard
    requires OnBoard(from) && (kind == KNIGHT || kind == KING)
  {
    if kind == KNIGHT then KnightMoves(from) else KingMoves(from)
  }

  /** `forEachBit(table &^ pieces, ...)`: capture or quiet move to every table square not holding an own piece. */
  function JumpOffers(pos: Position, kind: Kind, from: int): seq<Offer>
    requires OnBoard(from) && (kind == KNIGHT || kind == KING)
  {
    StepOffers(from, kind, StepTable(kind, from) - Own(pos), Theirs(pos))
  }

  /**
   * A knight or king move in board terms: a knight's jump or a king's step
   * onto a square without an own piece, capturing exactly when it holds an
   * opponent piece.
   */
  predicate Jump(pos: Position, kind: Kind, from: int, x: Offer)
    requires OnBoard(from)
  {
    (x.Quiet? || x.Take?) && x.from == from && x.piece == kind
    && OnBoard(x.to) && (if kind == KNIGHT then KnightJump(from, x.to) else KingStep(from, x.to))
    && x.to !in Own(pos) && (x.Take? <==> x.to in Theirs(pos))
  }

  lemma JumpOffersAre(pos: Position, kind: Kind, from: int)
    requires OnBoard(from) && (kind == KNIGHT || kind == KING)
    ensures forall x :: x in JumpOffers(pos, kind, from) <==> Jump(pos, kind, from, x)
  {
    StepOffersAre(from, kind, StepTable(kind, from) - Own(pos), Theirs(pos));
  }

  // ---------------------------------------------------------------------
  // Sliders
  // ---------------------------------------------------------------------

  /** The slider loop body: the captures found while scanning, then the quiet moves in square order. */
  function SlideOffers(pos: Position, kind: Kind, from: int): seq<Offer>
    requires OnBoard(from) && IsSlider(kind)
  {
    var s := Scan(Directions(kind), from, kind, Occupancy(pos), Theirs(pos));
    s.captures + QuietOffers(from, kind, s.moves)
  }

  /** A quiet move to each square of `targets`, in square order. */
  function QuietOffers(from: int, kind: Kind, targets: Bitboard): seq<Offer>
  {
    var tos := ForEachBit(targets);
    seq(|tos|, k requires 0 <= k < |tos| => Quiet(from, tos[k], kind))
  }

  lemma QuietOffersAre(from: int, kind: Kind, targets: Bitboard)
    ensures forall x :: x in QuietOffers(from, kind, targets) <==>
              x.Quiet? && x.from == from && x.piece == kind && x.to in targets
  {
    var tos := ForEachBit(targets);
    forall x | x in QuietOffers(from, kind, targets)
      ensures x.to in targets
    {
      var k :| 0 <= k < |tos| && QuietOffers(from, kind, targets)[k] == x;
      assert tos[k] in tos;
    }
    forall j | j in targets
      ensures Quiet(from, j, kind) in QuietOffers(from, kind, targets)
    {
      var k :| 0 <= k < |tos| && tos[k] == j;
      assert QuietOffers(from, kind, targets)[k] == Quiet(from, j, kind);
    }
  }

  /**
   * A slider move in board terms: to a square seen along one of the
   * piece's directions, quiet when it is empty, a capture when it holds an
   * opponent piece; an own piece ends the ray and is never a target.
   */
  predicate Slide(pos: Position, kind: Kind, from: int, x: Offer)
    requires OnBoard(from) && IsSlider(kind)
  {
    ((x.Quiet? && OnBoard(x.to) && x.to !in Occupancy(pos)) || (x.Take? && x.to in Theirs(pos)))
    && x.from == from && x.piece == kind && Sees(Directions(kind), from, Occupancy(pos), x.to)
  }

  lemma SlideOffersAre(pos: Position, kind: Kind, from: int)
    requires OnBoard(from) && IsSlider(kind)
    ensures forall x :: x in SlideOffers(pos, kind, from) <==> Slide(pos, kind, from, x)
  {
    var dirs, occupied := Directions(kind), Occupancy(pos);
    var s := Scan(dirs, from, kind, occupied, Theirs(pos));
    ScanMoves(dirs, from, kind, occupied, Theirs(pos));
    ScanCaptures(dirs, from, kind, occupied, Theirs(pos));
    QuietOffersAre(from, kind, s.moves);
  }

  // ---------------------------------------------------------------------
  // Every piece
  // ---------------------------------------------------------------------

  /** What the generator offers for its piece of kind `kind` on `from`. */
  function PieceOffers(pos: Position, kind: Kind, from: int): seq<Offer>
    requires OnBoard(from) && EpInRange(pos)
  {
    if kind == PAWN then PawnOffers(pos, from)
    else if kind == KNIGHT || kind == KING then JumpOffers(pos, kind, from)
    else SlideOffers(pos, kind, from)
  }

  /** The moves of the piece of kind `kind` on `from`, in board terms. */
  predicate Offered(pos: Position, kind: Kind, from: int, x: Offer)
    requires OnBoard(from)
  {
    if kind == PAWN then PawnPush(pos, from, x) || PawnCapture(pos, from, x)
    else if kind == KNIGHT || kind == KING then Jump(pos, kind, from, x)
    else Slide(pos, kind, from, x)
  }

  lemma PieceOffersAre(pos: Position, kind: Kind, from: int)
    requires OnBoard(from) && EpInRange(pos)
    ensures forall x :: x in PieceOffers(pos, kind, from) <==> Offered(pos, kind, from, x)
  {
    if kind == PAWN {
      PawnOffersAre(pos, from);
    } else if kind == KNIGHT || kind == KING {
      JumpOffersAre(pos, kind, from);
    } else {
      SlideOffersAre(pos, kind, from);
    }
  }

  /** `forEachBit(pieces & pos.pieces[kind], ...)`: the offers of each such piece, in square order. */
  function Gather(pos: Position, kind: Kind, froms: seq<int>): seq<Offer>
    requires EpInRange(pos) && forall k | 0 <= k < |froms| :: OnBoard(froms[k])
    decreases |froms|
  {
    if froms == [] then []
    else PieceOffers(pos, kind, froms[0]) + Gather(pos, kind, froms[1..])
  }

  /** The gathered offers are those of the pieces on the squares of froms. */
  lemma {:induction false} GatherAre(pos: Position, kind: Kind, froms: seq<int>)
    requires EpInRange(pos) && forall k | 0 <= k < |froms| :: OnBoard(froms[k])
    ensures forall x :: x in Gather(pos, kind, froms) <==>
              exists k | 0 <= k < |froms| :: x in PieceOffers(pos, kind, froms[k])
    decreases |froms|
  {
    if froms != [] {
      GatherAre(pos, kind, froms[1..]);
      forall x
        ensures (exists k | 0 <= k < |froms| :: x in PieceOffers(pos, kind, froms[k]))
                <==> x in PieceOffers(pos, kind, froms[0])
                     || exists k | 0 <= k < |froms[1..]| :: x in PieceOffers(pos, kind, froms[1..][k])
      {
        if exists k | 0 <= k < |froms| :: x in PieceOffers(pos, kind, froms[k]) {
          var k :| 0 <= k < |froms| && x in PieceOffers(pos, kind, froms[k]);
          if k > 0 {
            assert froms[1..][k - 1] == froms[k];
          }
        }
        if exists k | 0 <= k < |froms[1..]| :: x in PieceOffers(pos, kind, froms[1..][k]) {
          var k :| 0 <= k < |froms[1..]| && x in PieceOffers(pos, kind, froms[1..][k]);
          assert froms[1..][k] == froms[k + 1];
        }
      }
    }
  }

  /** The squares of the side to move's pieces of kind `kind`, in increasing order. */
  function PiecesOf(pos: Position, kind: Kind): (froms: seq<int>)
    ensures forall k | 0 <= k < |froms| :: OnBoard(froms[k]) && froms[k] in Own(pos) * pos.pieces[kind]
  {
    var froms := ForEachBit(Own(pos) * pos.pieces[kind]);
    assert forall k | 0 <= k < |froms| :: froms[k] in froms;
    froms
  }

  /** The offers of all of the side to move's pieces of kind `kind` are those of each such piece. */
  lemma PiecesOffer(pos: Position, kind: Kind)
    requires EpInRange(pos)
    ensures forall x :: x in Gather(pos, kind, PiecesOf(pos, kind)) <==>
              PieceMove(pos, kind, x)
  {
    var froms := PiecesOf(pos, kind);
    GatherAre(pos, kind, froms);
    forall x
      ensures x in Gather(pos, kind, froms) <==>
              PieceMove(pos, kind, x)
    {
      if x in Gather(pos, kind, froms) {
        var k :| 0 <= k < |froms| && x in PieceOffers(pos, kind, froms[k]);
        PieceOffersAre(pos, kind, froms[k]);
        OfferedFrom(pos, kind, froms[k], x);
      }
      if PieceMove(pos, kind, x) {
        assert x.from in froms;
        var k :| 0 <= k < |froms| && froms[k] == x.from;
        PieceOffersAre(pos, kind, froms[k]);
      }
    }
  }

  /** Every offer of a piece starts from its square. */
  lemma OfferedFrom(pos: Position, kind: Kind, from: int, x: Offer)
    requires OnBoard(from) && Offered(pos, kind, from, x)
    ensures x.from == from
  {
  }

  // ---------------------------------------------------------------------
  // The generator
  // ---------------------------------------------------------------------

  /** The side to move has a king: without one, `kingMoves[leftBit(0)]` indexes square 64 and panics. */
  predicate HasKing(pos: Position)
  {
    Own(pos) * pos.pieces[KING] != {}
  }

  /** `leftBit(pieces & pos.pieces[KING])`: the king's square, the lowest one if there are several. */
  function KingSquare(pos: Position): (king: int)
    requires HasKing(pos)
    ensures OnBoard(king) && king in Own(pos) * pos.pieces[KING]
  {
    LeftBit(Own(pos) * pos.pieces[KING])
  }

  /**
   * The generator's steps in order: every pawn, every knight, the king, the
   * castling block, every bishop, every rook, every queen.
   */
  function Plan(pos: Position): seq<Offer>
    requires EpInRange(pos) && HasKing(pos)
  {
    var king := KingSquare(pos);
    Gather(pos, PAWN, PiecesOf(pos, PAWN)) + Gather(pos, KNIGHT, PiecesOf(pos, KNIGHT))
    + PieceOffers(pos, KING, king) + [Castles(king, Occupancy(pos))]
    + Gather(pos, BISHOP, PiecesOf(pos, BISHOP)) + Gather(pos, ROOK, PiecesOf(pos, ROOK))
    + Gather(pos, QUEEN, PiecesOf(pos, QUEEN))
  }

  /** x is a move of one of the side to move's pieces of kind `kind`. */
  predicate PieceMove(pos: Position, kind: Kind, x: Offer)
  {
    OnBoard(x.from) && x.from in Own(pos) * pos.pieces[kind] && Offered(pos, kind, x.from, x)
  }

  /** x is a move of the king the generator found. */
  predicate KingMove(pos: Position, x: Offer)
    requires HasKing(pos)
  {
    x.from == KingSquare(pos) && Offered(pos, KING, KingSquare(pos), x)
  }

  /**
   * The steps in board terms: the castling block, a move of the king the
   * generator found, or a move of a pawn, knight, bishop, rook or queen of
   * the side to move.
   */
  predicate Planned(pos: Position, x: Offer)
    requires HasKing(pos)
  {
    var king := KingSquare(pos);
    x == Castles(king, Occupancy(pos)) || KingMove(pos, x)
    || PieceMove(pos, PAWN, x) || PieceMove(pos, KNIGHT, x)
    || PieceMove(pos, BISHOP, x) || PieceMove(pos, ROOK, x) || PieceMove(pos, QUEEN, x)
  }

  /** The plan holds exactly the steps described in board terms. */
  lemma PlanIs(pos: Position)
    requires EpInRange(pos) && HasKing(pos)
    ensures forall x :: x in Plan(pos) <==> Planned(pos, x)
  {
    var king := KingSquare(pos);
    PlanParts(pos);
    PiecesOffer(pos, PAWN);
    PiecesOffer(pos, KNIGHT);
    PiecesOffer(pos, BISHOP);
    PiecesOffer(pos, ROOK);
    PiecesOffer(pos, QUEEN);
    KingOffers(pos);
  }

  /** The king's offers are the moves of the king the generator found. */
  lemma KingOffers(pos: Position)
    requires EpInRange(pos) && HasKing(pos)
    ensures var king := KingSquare(pos);
            forall x :: x in PieceOffers(pos, KING, king) <==> KingMove(pos, x)
  {
    var king := KingSquare(pos);
    PieceOffersAre(pos, KING, king);
    forall x | Offered(pos, KING, king, x)
      ensures x.from == king
    {
      OfferedFrom(pos, KING, king, x);
    }
  }

  /** The plan is its seven parts, one after the other. */
  lemma PlanParts(pos: Position)
    requires EpInRange(pos) && HasKing(pos)
    ensures var king := KingSquare(pos);
            forall x :: x in Plan(pos) <==>
              x in Gather(pos, PAWN, PiecesOf(pos, PAWN)) || x in Gather(pos, KNIGHT, PiecesOf(pos, KNIGHT))
              || x in PieceOffers(pos, KING, king) || x == Castles(king, Occupancy(pos))
              || x in Gather(pos, BISHOP, PiecesOf(pos, BISHOP)) || x in Gather(pos, ROOK, PiecesOf(pos, ROOK))
              || x in Gather(pos, QUEEN, PiecesOf(pos, QUEEN))
  {
    var king := KingSquare(pos);
    InSeven(Plan(pos), Gather(pos, PAWN, PiecesOf(pos, PAWN)), Gather(pos, KNIGHT, PiecesOf(pos, KNIGHT)),
            PieceOffers(pos, KING, king), [Castles(king, Occupancy(pos))],
            Gather(pos, BISHOP, PiecesOf(pos, BISHOP)), Gather(pos, ROOK, PiecesOf(pos, ROOK)),
            Gather(pos, QUEEN, PiecesOf(pos, QUEEN)));
  }

  lemma InSeven(s: seq<Offer>, a: seq<Offer>, b: seq<Offer>, c: seq<Offer>, d: seq<Offer>,
                e: seq<Offer>, f: seq<Offer>, g: seq<Offer>)
    requires s == a + b + c + d + e + f + g
    ensures forall x :: x in s <==> x in a || x in b || x in c || x in d || x in e || x in f || x in g
  {
  }

  /** The squares a planned step names are on the board, and it moves a piece of the side to move. */
  lemma PlannedOnBoard(pos: Position, x: Offer)
    requires HasKing(pos) && Planned(pos, x)
    ensures OnBoardOffer(x) && x.from in Own(pos)
  {
  }

  lemma PlanOnBoard(pos: Position)
    requires EpInRange(pos) && HasKing(pos)
    ensures forall x | x in Plan(pos) :: OnBoardOffer(x) && x.from in Own(pos)
    ensures Froms(Plan(pos)) <= Own(pos)
  {
    PlanIs(pos);
    forall x | x in Plan(pos)
      ensures OnBoardOffer(x) && x.from in Own(pos)
    {
      PlannedOnBoard(pos, x);
    }
  }

  /**
   * `movegen(pos)`: runs the plan from an empty list. Only the colour
   * boards of the position can change, and every move on the list is the
   * side to move's and starts on a square holding one of its pieces.
   */
  function Movegen(o: Oracle, pos: Position): (r: Gen)
    requires EpInRange(pos) && HasKing(pos) && PieceFits(o)
    ensures SameButColours(r.pos, pos)
    ensures MovesFrom(r.list, Own(pos), pos.toMove)
  {
    PlanOnBoard(pos);
    var g := Gen(pos, []);
    RunMovesFrom(o, g, Plan(pos));
    var r := Run(o, g, Plan(pos));
    assert r.list[|g.list|..] == r.list;
    r
  }

  // ---------------------------------------------------------------------
  // Consistent positions
  // ---------------------------------------------------------------------

  /**
   * No square is both white and black, and the en-passant square, when it
   * is set, holds no piece of the side to move and has the pawn to be taken
   * behind it.
   */
  predicate Consistent(pos: Position)
  {
    pos.white * pos.black == {}
    && (OnBoard(pos.enpassant) ==>
          pos.enpassant !in Own(pos)
          && (Victim(pos, pos.enpassant) >= 0 ==> Victim(pos, pos.enpassant) in Theirs(pos)))
  }

  /**
   * What a planned step's target holds: no own piece; nothing at all for a
   * quiet step; an opponent piece, or the en-passant square, for a capture.
   */
  predicate TargetFits(pos: Position, x: Offer)
    requires !x.Castles?
  {
    x.to !in Own(pos)
    && (Captures(x) ==> x.to in Theirs(pos) || x.to == pos.enpassant)
    && (!Captures(x) ==> x.to !in Occupancy(pos))
  }

  lemma PlannedTarget(pos: Position, x: Offer)
    requires HasKing(pos) && Planned(pos, x) && !x.Castles? && Consistent(pos)
    ensures TargetFits(pos, x)
  {
    var king := KingSquare(pos);
    if KingMove(pos, x) {
      OfferedTarget(pos, KING, king, x);
    } else if PieceMove(pos, PAWN, x) {
      OfferedTarget(pos, PAWN, x.from, x);
    } else if PieceMove(pos, KNIGHT, x) {
      OfferedTarget(pos, KNIGHT, x.from, x);
    } else if PieceMove(pos, BISHOP, x) {
      OfferedTarget(pos, BISHOP, x.from, x);
    } else if PieceMove(pos, ROOK, x) {
      OfferedTarget(pos, ROOK, x.from, x);
    } else {
      OfferedTarget(pos, QUEEN, x.from, x);
    }
  }

  /** Every piece's offer fits its target: pushes and quiet moves onto empty squares, captures onto opponent pieces or en passant. */
  lemma OfferedTarget(pos: Position, kind: Kind, from: int, x: Offer)
    requires OnBoard(from) && Offered(pos, kind, from, x) && Consistent(pos)
    ensures !x.Castles? && TargetFits(pos, x)
  {
    SidesApart(pos);
    SidesOccupy(pos);
    if kind == PAWN && PawnCapture(pos, from, x) {
      assert x.to in Theirs(pos) || (OnBoard(pos.enpassant) && x.to == pos.enpassant);
    }
  }

  /** With no square both white and black, the two sides' boards are disjoint. */
  lemma SidesApart(pos: Position)
    requires pos.white * pos.black == {}
    ensures forall j | j in Theirs(pos) :: j !in Own(pos)
  {
    assert forall j | j in pos.white :: j !in pos.black by {
      forall j | j in pos.white
        ensures j !in pos.black
      {
        assert j in pos.white * pos.black <==> j in pos.black;
      }
    }
  }

  /** A step whose target fits puts the boards back after testing its moves. */
  lemma TargetUndone(pos: Position, x: Offer)
    requires OnBoardOffer(x) && x.from in Own(pos) && !x.Castles? && TargetFits(pos, x) && Consistent(pos)
    ensures Undone(pos, x)
  {
    if x.to != pos.enpassant {
      assert Victim(pos, x.to) == x.to;
    }
  }

  lemma PlanUndone(pos: Position)
    requires EpInRange(pos) && HasKing(pos) && Consistent(pos)
    ensures forall x | x in Plan(pos) :: OnBoardOffer(x) && Undone(pos, x)
  {
    PlanIs(pos);
    PlanOnBoard(pos);
    forall x | x in Plan(pos) && !x.Castles?
      ensures Undone(pos, x)
    {
      PlannedTarget(pos, x);
      TargetUndone(pos, x);
    }
  }

  /** The moves the plan's steps keep, one step after the other. */
  function PlanMoves(o: Oracle, pos: Position): seq<Move>
    requires EpInRange(pos) && HasKing(pos) && PieceFits(o)
  {
    PlanOnBoard(pos);
    Expected(o, pos, Plan(pos))
  }

  /**
   * On a consistent position the generator leaves the boards exactly as it
   * found them, and its list is the moves of the plan that pass the
   * legality test (the castles untested), in plan order.
   */
  lemma MovegenFilters(o: Oracle, pos: Position)
    requires EpInRange(pos) && HasKing(pos) && PieceFits(o) && Consistent(pos)
    ensures Movegen(o, pos) == Gen(pos, PlanMoves(o, pos))
  {
    PlanUndone(pos);
    RunFilters(o, Gen(pos, []), Plan(pos));
    assert [] + Expected(o, pos, Plan(pos)) == Expected(o, pos, Plan(pos));
  }

  // ---------------------------------------------------------------------
  // The generated moves
  // ---------------------------------------------------------------------

  /**
   * A generated move: the side to move's, from one of its pieces, never onto
   * one of its pieces; a capture lands on an opponent piece or the
   * en-passant square, any other move on an empty square.
   */
  predicate MoveFits(pos: Position, m: Move)
  {
    Turn(m) == pos.toMove && From(m) in Own(pos) && To(m) !in Own(pos)
    && (Capture(m) ==> To(m) in Theirs(pos) || To(m) == pos.enpassant)
    && (!Capture(m) ==> To(m) !in Occupancy(pos))
  }

  /**
   * Why `EpInRange` bounds a white en-passant square by 55: `addToMovelist`
   * treats every capture onto the en-passant square as en passant, whatever
   * the piece. With white to move, the en-passant square on 60 (e1) holding
   * a black piece and a white knight on 43 (d3), the knight's capture onto 60
   * is offered, and the square it would clear is 68, off the board: a
   * negative shift count, a run-time panic.
   */
  lemma FirstRankEnPassantPanics(pos: Position)
    requires pos.toMove == WHITE && pos.enpassant == 60
    requires pos.white * pos.black == {} && 60 in pos.black && 43 in pos.white
    ensures !EpInRange(pos)
    ensures Take(43, 60, KNIGHT) in JumpOffers(pos, KNIGHT, 43)
    ensures Victim(pos, 60) == 68
  {
    assert KnightJump(43, 60) by { assert Rank(43) == 3 && File(43) == 4 && Rank(60) == 1 && File(60) == 5; }
    JumpOffersAre(pos, KNIGHT, 43);
  }

  /** On a consistent position every move the generator lists fits its target. */
  lemma MovegenTargets(o: Oracle, pos: Position)
    requires EpInRange(pos) && HasKing(pos) && PieceFits(o) && Consistent(pos)
    ensures forall m | m in Movegen(o, pos).list :: MoveFits(pos, m)
  {
    MovegenFilters(o, pos);
    PlanOnBoard(pos);
    forall m | m in Expected(o, pos, Plan(pos))
      ensures MoveFits(pos, m)
    {
      var x := ExpectedFrom(o, pos, Plan(pos), m);
      PackedFits(o, pos, x, m);
    }
  }

  /** Every move a planned step packs fits its target. */
  lemma PackedFits(o: Oracle, pos: Position, x: Offer, m: Move)
    requires EpInRange(pos) && HasKing(pos) && PieceFits(o) && Consistent(pos)
    requires x in Plan(pos) && m in Packed(o, pos, x)
    ensures MoveFits(pos, m)
  {
    assert Planned(pos, x) by {
      PlanIs(pos);
    }
    if x.Castles? {
      PlannedCastles(pos, x);
      CastleFits(o, pos, m);
    } else {
      PlannedFits(o, pos, x, m);
    }
  }

  /** The packed moves of a planned step other than the castles read back its squares, so they fit its target. */
  lemma PlannedFits(o: Oracle, pos: Position, x: Offer, m: Move)
    requires HasKing(pos) && PieceFits(o) && Consistent(pos)
    requires Planned(pos, x) && !x.Castles? && m in Packed(o, pos, x)
    ensures MoveFits(pos, m)
  {
    PlannedOnBoard(pos, x);
    PlannedTarget(pos, x);
    PackedReads(o, pos, x);
  }

  /** A castle lands on one of the squares the block requires empty. */
  lemma CastleFits(o: Oracle, pos: Position, m: Move)
    requires HasKing(pos) && m in CastleMoves(o, pos, KingSquare(pos), Occupancy(pos))
    ensures MoveFits(pos, m)
  {
    SidesOccupy(pos);
    CastleLands(o, pos, KingSquare(pos), Occupancy(pos), m);
  }

  /** Each castle is a quiet king move of the side to move onto a square of the occupied board's complement. */
  lemma CastleLands(o: Oracle, pos: Position, king: int, occupied: Bitboard, m: Move)
    requires OnBoard(king) && m in CastleMoves(o, pos, king, occupied)
    ensures From(m) == king && Turn(m) == pos.toMove && !Capture(m) && To(m) !in occupied
  {
    assert m == CastleMove(pos, king, true) || m == CastleMove(pos, king, false) by {
      CastleMovesAre(o, pos, king, occupied);
    }
    CastleMovesDiffer(pos, king);
    if m == CastleMove(pos, king, true) {
      CastleSideLands(o, pos, king, occupied, true);
    } else {
      CastleSideLands(o, pos, king, occupied, false);
    }
  }

  lemma CastleSideLands(o: Oracle, pos: Position, king: int, occupied: Bitboard, side: bool)
    requires OnBoard(king) && CastleMove(pos, king, true) != CastleMove(pos, king, false)
    requires CastleMove(pos, king, side) in CastleMoves(o, pos, king, occupied)
    ensures var m := CastleMove(pos, king, side);
            From(m) == king && Turn(m) == pos.toMove && !Capture(m) && To(m) !in occupied
  {
    var c, t := pos.toMove, CastleTarget(pos.toMove, side);
    assert occupied * CastleEmpty(c, side) == {} by {
      InCastleMoves(o, pos, king, occupied, side);
    }
    assert t !in occupied by {
      assert t in CastleEmpty(c, side);
      assert t in occupied ==> t in occupied * CastleEmpty(c, side);
    }
    CastleMoveRead(pos, king, side);
  }

  /** The only castling step of the plan is the castling block itself. */
  lemma PlannedCastles(pos: Position, x: Offer)
    requires HasKing(pos) && Planned(pos, x) && x.Castles?
    ensures x == Castles(KingSquare(pos), Occupancy(pos))
  {
    if PieceMove(pos, PAWN, x) {
      OfferedMoves(pos, PAWN, x.from, x);
    } else if PieceMove(pos, KNIGHT, x) {
      OfferedMoves(pos, KNIGHT, x.from, x);
    } else if PieceMove(pos, BISHOP, x) {
      OfferedMoves(pos, BISHOP, x.from, x);
    } else if PieceMove(pos, ROOK, x) {
      OfferedMoves(pos, ROOK, x.from, x);
    } else if PieceMove(pos, QUEEN, x) {
      OfferedMoves(pos, QUEEN, x.from, x);
    }
  }

  /** A piece's offers are moves, never the castling block. */
  lemma OfferedMoves(pos: Position, kind: Kind, from: int, x: Offer)
    requires OnBoard(from) && Offered(pos, kind, from, x)
    ensures !x.Castles?
  {
  }

  /** A move on the expected list comes from the packed moves of one of the steps. */
  lemma {:induction false} ExpectedFrom(o: Oracle, pos: Position, xs: seq<Offer>, m: Move) returns (x: Offer)
    requires EpInRange(pos) && PieceFits(o) && forall x | x in xs :: OnBoardOffer(x)
    requires m in Expected(o, pos, xs)
    ensures x in xs && m in Packed(o, pos, x)
    decreases |xs|
  {
    assert Expected(o, pos, xs) == Kept(o, pos, xs[0]) + Expected(o, pos, xs[1..]);
    if m in Kept(o, pos, xs[0]) {
      x := xs[0];
      KeptPacked(o, pos, x, m);
    } else {
      assert forall y | y in xs[1..] :: y in xs;
      x := ExpectedFrom(o, pos, xs[1..], m);
    }
  }

  /** What a step keeps is some of what it packs. */
  lemma KeptPacked(o: Oracle, pos: Position, x: Offer, m: Move)
    requires OnBoardOffer(x) && EpInRange(pos) && PieceFits(o) && m in Kept(o, pos, x)
    ensures m in Packed(o, pos, x)
  {
    if !x.Castles? {
      var kept := Kept(o, pos, x);
      PicksAreOffered(kept, Packed(o, pos, x));
      var k :| 0 <= k < |kept| && kept[k] == m;
    }
  }
}
