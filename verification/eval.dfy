/**
 * Material evaluation: a popcount-weighted sum over both colours and the
 * kinds PAWN..QUEEN, seen from the side to move.
 */
module Evaluation {
  import opened Bitboards
  import opened Pieces
  import opened Positions

  /** `PIECEVALUES[colour][piece]` in centipawns; black's row is white's negated. */
  const PieceValues: seq<seq<int>> := [[100, 300, 300, 500, 900], [-100, -300, -300, -500, -900]]

  /** `scoreModifier[colour]`: scores are kept from white's side and turned by this factor. */
  const ScoreModifier: seq<int> := [1, -1]

  /** How many pieces of kind p the colour c has. */
  function Held(pos: Position, c: Colour, p: Kind): nat
  {
    CountBits(pos.Colours(c) * pos.pieces[p])
  }

  /** The value of colour c's pieces of kinds below n, using c's own row of `PIECEVALUES`. */
  function Weighted(pos: Position, c: Colour, n: nat): int
    requires n <= 5
  {
    if n == 0 then 0
    else Weighted(pos, c, n - 1) + Held(pos, c, n - 1) * PieceValues[c][n - 1]
  }

  /**
   * The material balance from white's side over the kinds below n: for each
   * kind, white's count less black's count, times the kind's value.
   */
  function Balance(pos: Position, n: nat): int
    requires n <= 5
  {
    if n == 0 then 0
    else Balance(pos, n - 1) + (Held(pos, WHITE, n - 1) - Held(pos, BLACK, n - 1)) * PieceValues[WHITE][n - 1]
  }

  lemma Distributes(w: int, b: int, v: int)
    ensures w * v + b * -v == (w - b) * v
  {
  }

  lemma {:induction false} WeightedIsBalance(pos: Position, n: nat)
    requires n <= 5
    ensures Weighted(pos, WHITE, n) + Weighted(pos, BLACK, n) == Balance(pos, n)
  {
    if n > 0 {
      WeightedIsBalance(pos, n - 1);
      var w: int, b: int, v: int := Held(pos, WHITE, n - 1), Held(pos, BLACK, n - 1), PieceValues[WHITE][n - 1];
      assert PieceValues[BLACK][n - 1] == -v;
      Distributes(w, b, v);
    }
  }

  /** `eval(p)`: the material balance, negated when black is to move. */
  method Eval(pos: Position) returns (score: int)
    ensures score == ScoreModifier[pos.toMove] * Balance(pos, 5)
    ensures pos.toMove == WHITE ==> score == Balance(pos, 5)
    ensures pos.toMove == BLACK ==> score == -Balance(pos, 5)
  {
    score := 0;
    var colour := WHITE;
    while colour <= BLACK
      invariant WHITE <= colour <= BLACK + 1
      invariant colour == WHITE ==> score == 0
      invariant colour == BLACK ==> score == Weighted(pos, WHITE, 5)
      invariant colour == BLACK + 1 ==> score == Weighted(pos, WHITE, 5) + Weighted(pos, BLACK, 5)
    {
      score := AddKinds(pos, colour, score);
      colour := colour + 1;
    }
    var total := score;
    assert total == Balance(pos, 5) by {
      WeightedIsBalance(pos, 5);
    }
    score := ScoreModifier[pos.toMove] * total;
  }

  /** The inner loop of `eval`: add colour c's pieces of each kind PAWN..QUEEN, weighted, to the score. */
  method AddKinds(pos: Position, c: Colour, base: int) returns (score: int)
    ensures score == base + Weighted(pos, c, 5)
  {
    score := base;
    var piece := PAWN;
    while piece <= QUEEN
      invariant PAWN <= piece <= QUEEN + 1
      invariant score == base + Weighted(pos, c, piece)
    {
      score := score + CountBits(pos.Colours(c) * pos.pieces[piece]) * PieceValues[c][piece];
      piece := piece + 1;
    }
  }

  /** Positions that agree on the boards of the kinds below n have the same balance there. */
  lemma {:induction false} BalanceReadsKinds(pos: Position, other: Position, n: nat)
    requires n <= 5
    requires other.white == pos.white && other.black == pos.black
    requires forall p | 0 <= p < n :: other.pieces[p] == pos.pieces[p]
    ensures Balance(other, n) == Balance(pos, n)
  {
    if n > 0 {
      BalanceReadsKinds(pos, other, n - 1);
    }
  }

  /** Kings never contribute: the king board can be anything. */
  lemma KingsDoNotCount(pos: Position, kings: Bitboard)
    ensures Balance(pos.(pieces := pos.pieces[KING := kings]), 5) == Balance(pos, 5)
  {
    BalanceReadsKinds(pos, pos.(pieces := pos.pieces[KING := kings]), 5);
  }

  /** Neither the side to move, the castling rights nor the counters affect the balance. */
  lemma BalanceReadsOnlyBoards(pos: Position, other: Position)
    requires other.white == pos.white && other.black == pos.black && other.pieces == pos.pieces
    ensures Balance(other, 5) == Balance(pos, 5)
  {
    BalanceReadsKinds(pos, other, 5);
  }

  /** Handing the move to the other side, with the same boards, negates the score. */
  lemma SideToMoveNegates(pos: Position)
    ensures ScoreModifier[Opponent(pos.toMove)] * Balance(pos.(toMove := Opponent(pos.toMove)), 5)
         == -(ScoreModifier[pos.toMove] * Balance(pos, 5))
  {
    BalanceReadsOnlyBoards(pos, pos.(toMove := Opponent(pos.toMove)));
  }

  /** Swapping the white and black boards negates the balance. */
  lemma {:induction false} ColourSwapNegates(pos: Position, n: nat)
    requires n <= 5
    ensures Balance(pos.(white := pos.black, black := pos.white), n) == -Balance(pos, n)
  {
    if n > 0 {
      ColourSwapNegates(pos, n - 1);
    }
  }

  /** Equal numbers of each kind on both sides evaluate to 0, whoever is to move. */
  lemma {:induction false} EqualMaterialIsLevel(pos: Position, n: nat)
    requires n <= 5
    requires forall p | 0 <= p < n :: Held(pos, WHITE, p) == Held(pos, BLACK, p)
    ensures Balance(pos, n) == 0
  {
    if n > 0 {
      EqualMaterialIsLevel(pos, n - 1);
    }
  }

  /** The largest material swing over the kinds below n: 64 pieces of each, all on one side. */
  function Swing(n: nat): int
    requires n <= 5
  {
    if n == 0 then 0 else Swing(n - 1) + 64 * PieceValues[WHITE][n - 1]
  }

  lemma ScaledBound(x: int, v: int)
    requires -64 <= x <= 64 && 0 <= v
    ensures -64 * v <= x * v <= 64 * v
  {
  }

  /** The balance never exceeds the swing, in either direction. */
  lemma {:induction false} BalanceBound(pos: Position, n: nat)
    requires n <= 5
    ensures -Swing(n) <= Balance(pos, n) <= Swing(n)
  {
    if n > 0 {
      BalanceBound(pos, n - 1);
      var w: int, b: int := Held(pos, WHITE, n - 1), Held(pos, BLACK, n - 1);
      assert 0 <= w <= 64 && 0 <= b <= 64;
      ScaledBound(w - b, PieceValues[WHITE][n - 1]);
    }
  }

  /** Every evaluation lies within 64 times the sum of the piece values. */
  lemma EvalBound(pos: Position)
    ensures -134400 <= ScoreModifier[pos.toMove] * Balance(pos, 5) <= 134400
  {
    BalanceBound(pos, 5);
    assert Swing(5) == 134400;
  }
}
