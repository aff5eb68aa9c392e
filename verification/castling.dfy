/**
 * The castling block of the move generator. Castling moves bypass the
 * legality filter: they are appended directly when the side to move is not
 * in check, still has the right, the squares between king and rook are
 * empty and the two squares the king crosses are not attacked.
 */
module Castling {
  import opened Words
  import opened Bitboards
  import opened Pieces
  import opened Positions
  import opened Moves
  import opened Oracles
  import opened MoveLists

  /**
   * The word masks the generator tests `occupied` against, as written in
   * the code: `6`, `112`, `3 << 57` and `7 << 60`.
   */
  function CastleMask(c: Colour, kingSide: bool): Word
  {
    if c == WHITE then
      if kingSide then Uint64(6) else Uint64(112)
    else
      if kingSide then Shl(Uint64(3), 57) else Shl(Uint64(7), 60)
  }

  /** The squares of those masks. */
  function CastleEmpty(c: Colour, kingSide: bool): set<int>
  {
    if c == WHITE then
      if kingSide then {61, 62} else {57, 58, 59}
    else
      if kingSide then {5, 6} else {1, 2, 3}
  }

  /** The two squares that must not be attacked. */
  function CastlePath(c: Colour, kingSide: bool): (int, int)
  {
    if c == WHITE then
      if kingSide then (61, 62) else (58, 59)
    else
      if kingSide then (5, 6) else (2, 3)
  }

  /** Where the castling king lands. */
  function CastleTarget(c: Colour, kingSide: bool): int
  {
    if c == WHITE then
      if kingSide then 62 else 58
    else
      if kingSide then 6 else 2
  }

  /** The castling right the position records for c on that side. */
  function CastleRight(pos: Position, c: Colour, kingSide: bool): bool
  {
    if c == WHITE then
      if kingSide then pos.castleWK else pos.castleWQ
    else
      if kingSide then pos.castleBK else pos.castleBQ
  }

  // ---------------------------------------------------------------------
  // The chess rule, stated from the home squares
  // ---------------------------------------------------------------------

  /** e1 for white, e8 for black. */
  function KingHome(c: Colour): int
  {
    if c == WHITE then 60 else 4
  }

  /** h1/a1 for white, h8/a8 for black. */
  function RookHome(c: Colour, kingSide: bool): int
  {
    KingHome(c) + if kingSide then 3 else -4
  }

  predicate Inside(a: int, j: int, b: int)
  {
    a < j < b || b < j < a
  }

  /** The squares strictly between squares a and b. */
  function Between(a: int, b: int): set<int>
  {
    set j | 0 <= j < 64 && Inside(a, j, b)
  }

  /** One square towards the rook. */
  function Toward(kingSide: bool): int
  {
    if kingSide then 1 else -1
  }

  /**
   * The masks are the squares between king and rook; the squares tested for
   * attack are the two the king steps over and onto; the king lands two
   * squares towards the rook.
   */
  lemma CastleRule(c: Colour, kingSide: bool)
    ensures SquaresOf(CastleMask(c, kingSide)) == CastleEmpty(c, kingSide)
    ensures CastleEmpty(c, kingSide) == Between(KingHome(c), RookHome(c, kingSide))
    ensures CastlePath(c, kingSide) == (KingHome(c) + Toward(kingSide), KingHome(c) + 2 * Toward(kingSide))
            || CastlePath(c, kingSide) == (KingHome(c) + 2 * Toward(kingSide), KingHome(c) + Toward(kingSide))
    ensures CastleTarget(c, kingSide) == KingHome(c) + 2 * Toward(kingSide)
  {
    MaskSquares(c, kingSide);
    EmptySquaresBetween(c, kingSide);
    KingPath(c, kingSide);
  }

  lemma KingPath(c: Colour, kingSide: bool)
    ensures CastlePath(c, kingSide) == (KingHome(c) + Toward(kingSide), KingHome(c) + 2 * Toward(kingSide))
            || CastlePath(c, kingSide) == (KingHome(c) + 2 * Toward(kingSide), KingHome(c) + Toward(kingSide))
    ensures CastleTarget(c, kingSide) == KingHome(c) + 2 * Toward(kingSide)
  {
  }

  lemma EmptySquaresBetween(c: Colour, kingSide: bool)
    ensures CastleEmpty(c, kingSide) == Between(KingHome(c), RookHome(c, kingSide))
  {
    var between := Between(KingHome(c), RookHome(c, kingSide));
    forall j
      ensures j in between <==> j in CastleEmpty(c, kingSide)
    {
    }
  }

  lemma MaskSquares(c: Colour, kingSide: bool)
    ensures SquaresOf(CastleMask(c, kingSide)) == CastleEmpty(c, kingSide)
  {
    if c == WHITE && kingSide {
      WhiteKingSideMask();
    } else if c == WHITE {
      WhiteQueenSideMask();
    } else if kingSide {
      BlackKingSideMask();
    } else {
      BlackQueenSideMask();
    }
  }

  lemma WhiteKingSideMask()
    ensures SquaresOf(Uint64(6)) == {61, 62}
  {
    SmallWordBits(6, 3);
    assert Bits(6, 3) == [false, true, true];
    RunSquares(Uint64(6), 1, 3, {61, 62});
  }

  lemma WhiteQueenSideMask()
    ensures SquaresOf(Uint64(112)) == {57, 58, 59}
  {
    SmallWordBits(112, 7);
    assert Bits(112, 7) == [false, false, false, false, true, true, true];
    RunSquares(Uint64(112), 4, 7, {57, 58, 59});
  }

  lemma BlackKingSideMask()
    ensures SquaresOf(Shl(Uint64(3), 57)) == {5, 6}
  {
    SmallWordBits(3, 2);
    assert Bits(3, 2) == [true, true];
    RunSquares(Shl(Uint64(3), 57), 57, 59, {5, 6});
  }

  lemma BlackQueenSideMask()
    ensures SquaresOf(Shl(Uint64(7), 60)) == {1, 2, 3}
  {
    SmallWordBits(7, 3);
    assert Bits(7, 3) == [true, true, true];
    RunSquares(Shl(Uint64(7), 60), 60, 63, {1, 2, 3});
  }

  /** A word whose one bits are lo .. hi - 1 stands for squares 64 - hi .. 63 - lo. */
  lemma RunSquares(w: Word, lo: int, hi: int, s: set<int>)
    requires 0 <= lo <= hi <= 64
    requires forall k | 0 <= k < 64 :: w[k] == (lo <= k < hi)
    requires forall i :: i in s <==> 0 <= i < 64 && 63 - hi < i <= 63 - lo
    ensures SquaresOf(w) == s
  {
    forall i | OnBoard(i)
      ensures i in SquaresOf(w) <==> i in s
    {
      assert SquareBit(w, i) == w[63 - i];
    }
  }

  /** The bits of a number below 2^w, as a word: its w low bits, then zeros. */
  lemma SmallWordBits(x: nat, w: nat)
    requires w <= 64 && x < Pow2(w)
    ensures forall k | 0 <= k < 64 :: Uint64(x)[k] == (k < w && Bits(x, w)[k])
  {
    SmallUint64(x, w);
    BitsPrefix(x, 64, w);
    forall k | 0 <= k < w
      ensures Uint64(x)[k] == Bits(x, w)[k]
    {
      assert Bits(x, 64)[..w][k] == Bits(x, 64)[k];
    }
  }

  // ---------------------------------------------------------------------
  // The castling block
  // ---------------------------------------------------------------------

  /** `pos.isSquareAttacked(square, opponent(pos.toMove))`. */
  predicate Attacked(o: Oracle, pos: Position, square: int)
  {
    o.isSquareAttacked(pos, square, Opponent(pos.toMove))
  }

  /** One side's test: the right, the squares between empty, the path not attacked. */
  predicate CastleAllowed(o: Oracle, pos: Position, occupied: Bitboard, kingSide: bool)
  {
    var c := pos.toMove;
    var path := CastlePath(c, kingSide);
    CastleRight(pos, c, kingSide) && occupied * CastleEmpty(c, kingSide) == {}
    && !Attacked(o, pos, path.0) && !Attacked(o, pos, path.1)
  }

  /** The castling move as packed: a quiet king move from the king's square to the target. */
  function CastleMove(pos: Position, king: int, kingSide: bool): Move
  {
    PackMove(king, CastleTarget(pos.toMove, kingSide), KING, 0, 0, pos.toMove, false)
  }

  /**
   * The castles the block appends: none when in check; otherwise the
   * king-side castle, then the queen-side one, each when allowed. `king` and
   * `occupied` are the king square and the occupied board the generator
   * read at its start.
   */
  function CastleMoves(o: Oracle, pos: Position, king: int, occupied: Bitboard): (ms: seq<Move>)
    ensures |ms| <= 2
  {
    if InCheck(o, pos) then []
    else
      (if CastleAllowed(o, pos, occupied, true) then [CastleMove(pos, king, true)] else [])
      + (if CastleAllowed(o, pos, occupied, false) then [CastleMove(pos, king, false)] else [])
  }

  /** The castling block: its moves go straight onto the list, untested. */
  function Castle(o: Oracle, g: Gen, king: int, occupied: Bitboard): (r: Gen)
    ensures r.pos == g.pos
    ensures |r.list| == |g.list| + |CastleMoves(o, g.pos, king, occupied)|
    ensures r.list[..|g.list|] == g.list && r.list[|g.list|..] == CastleMoves(o, g.pos, king, occupied)
  {
    Gen(g.pos, g.list + CastleMoves(o, g.pos, king, occupied))
  }

  /**
   * A castle is added exactly when the side is not in check, still has the
   * right, every square between king and rook is empty, and neither square
   * the king crosses or lands on is attacked.
   */
  lemma CastleAppends(o: Oracle, pos: Position, king: int, occupied: Bitboard, kingSide: bool)
    requires OnBoard(king)
    ensures var c := pos.toMove;
            var home := KingHome(c);
            CastleMove(pos, king, kingSide) in CastleMoves(o, pos, king, occupied)
            <==> !InCheck(o, pos) && CastleRight(pos, c, kingSide)
                 && occupied * Between(home, RookHome(c, kingSide)) == {}
                 && !Attacked(o, pos, home + Toward(kingSide))
                 && !Attacked(o, pos, home + 2 * Toward(kingSide))
  {
    var c := pos.toMove;
    EmptySquaresBetween(c, kingSide);
    KingPath(c, kingSide);
    CastleMovesDiffer(pos, king);
    var home := KingHome(c);
    assert CastleAllowed(o, pos, occupied, kingSide)
           <==> CastleRight(pos, c, kingSide)
                && occupied * Between(home, RookHome(c, kingSide)) == {}
                && !Attacked(o, pos, home + Toward(kingSide))
                && !Attacked(o, pos, home + 2 * Toward(kingSide));
    InCastleMoves(o, pos, king, occupied, kingSide);
  }

  lemma InCastleMoves(o: Oracle, pos: Position, king: int, occupied: Bitboard, kingSide: bool)
    requires CastleMove(pos, king, true) != CastleMove(pos, king, false)
    ensures CastleMove(pos, king, kingSide) in CastleMoves(o, pos, king, occupied)
            <==> !InCheck(o, pos) && CastleAllowed(o, pos, occupied, kingSide)
  {
  }

  /** The two castling moves from one square differ: they land on different squares. */
  lemma CastleMovesDiffer(pos: Position, king: int)
    requires OnBoard(king)
    ensures CastleMove(pos, king, true) != CastleMove(pos, king, false)
  {
    assert FieldsFit(king, CastleTarget(pos.toMove, true), KING, 0, 0);
    assert FieldsFit(king, CastleTarget(pos.toMove, false), KING, 0, 0);
  }

  /**
   * From the home square the castles are packed as castles: a king move of
   * the side to move, no capture, flagged king-side or queen-side by the side
   * it goes to.
   */
  lemma CastleFlags(pos: Position, kingSide: bool)
    ensures var m := CastleMove(pos, KingHome(pos.toMove), kingSide);
            From(m) == KingHome(pos.toMove) && To(m) == KingHome(pos.toMove) + 2 * Toward(kingSide)
            && MovingPiece(m) == KING && Turn(m) == pos.toMove && !Capture(m)
            && CastleK(m) == kingSide && CastleQ(m) == !kingSide
  {
    var c := pos.toMove;
    KingPath(c, kingSide);
    assert FieldsFit(KingHome(c), CastleTarget(c, kingSide), KING, 0, 0);
  }
}
