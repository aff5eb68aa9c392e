/**
 * The packed move word.
 *
 * Bits 0..5 hold the from square, 6..11 the to square, 12..14 the moving
 * piece, 15..17 the promotion piece and 18..20 the captured piece. Six flags
 * sit at the top: pawn jump (58), king-side castle (59), queen-side castle
 * (60), promotion (61), capture (62) and the side to move (63, set for black).
 */
module Moves {
  import opened Bitboards
  import opened Notation
  import opened Pieces
  import opened Words

  /** A move is a `uint64`. */
  type Move = Word

  /** `0b111111` and `0b111`. */
  const SpaceMask: Word := LowMask(6)
  const PieceMask: Word := LowMask(3)

  const SpaceSize: nat := 6
  const PieceSize: nat := 3

  const FromOffset: nat := 0
  const ToOffset: nat := 6
  const PieceOffset: nat := 12
  const PromotePieceOffset: nat := 15
  const CapturePieceOffset: nat := 18

  const PawnJumpFlag: Word := Bit(58)
  const CastleKFlag: Word := Bit(59)
  const CastleQFlag: Word := Bit(60)
  const PromoteFlag: Word := Bit(61)
  const CaptureFlag: Word := Bit(62)
  const TurnFlag: Word := Bit(63)

  /** The two masks are six and three low ones. */
  lemma MaskBits()
    ensures forall k | 0 <= k < 64 :: SpaceMask[k] == (k < SpaceSize)
    ensures forall k | 0 <= k < 64 :: PieceMask[k] == (k < PieceSize)
  {
    LowMaskBits(6);
    LowMaskBits(3);
  }

  // ---------------------------------------------------------------------
  // Accessors
  // ---------------------------------------------------------------------

  /** The number held in bits off .. off + size - 1 of m. */
  function FieldOf(m: Move, off: nat, size: nat): nat
    requires off + size <= 64
  {
    Value(m[off..off + size])
  }

  /** Masking the shifted word with `size` low ones reads one field. */
  lemma ReadField(m: Move, off: nat, size: nat, mask: Word)
    requires off + size <= 64
    requires forall k | 0 <= k < 64 :: mask[k] == (k < size)
    ensures Value(And(mask, Shr(m, off))) == FieldOf(m, off, size)
  {
    var a := And(mask, Shr(m, off));
    ValueOfLowBits(a, size);
    assert a[..size] == m[off..off + size];
  }

  /**
   * `from()`: bits 0..5. Each accessor is stated as the field it reads;
   * `AccessorsMask` shows that this is the source's mask of the shifted word.
   */
  function From(m: Move): (r: int)
    ensures 0 <= r < 64
  {
    FieldOf(m, FromOffset, SpaceSize)
  }

  /** `to()`: bits 6..11. */
  function To(m: Move): (r: int)
    ensures 0 <= r < 64
  {
    FieldOf(m, ToOffset, SpaceSize)
  }

  /** `piece()`: bits 12..14. */
  function MovingPiece(m: Move): (r: int)
    ensures 0 <= r < 8
  {
    FieldOf(m, PieceOffset, PieceSize)
  }

  /** `promotedPiece()`: bits 15..17. */
  function PromotedPiece(m: Move): (r: int)
    ensures 0 <= r < 8
  {
    FieldOf(m, PromotePieceOffset, PieceSize)
  }

  /** `capturePiece()`: bits 18..20. */
  function CapturePiece(m: Move): (r: int)
    ensures 0 <= r < 8
  {
    FieldOf(m, CapturePieceOffset, PieceSize)
  }

  /**
   * The accessors are the source's expressions: the six- or three-bit mask
   * and-ed with the word shifted down to the field (shifted by 0 for `from`).
   */
  lemma AccessorsMask(m: Move)
    ensures From(m) == Value(And(SpaceMask, Shl(m, FromOffset)))
    ensures To(m) == Value(And(SpaceMask, Shr(m, ToOffset)))
    ensures MovingPiece(m) == Value(And(PieceMask, Shr(m, PieceOffset)))
    ensures PromotedPiece(m) == Value(And(PieceMask, Shr(m, PromotePieceOffset)))
    ensures CapturePiece(m) == Value(And(PieceMask, Shr(m, CapturePieceOffset)))
  {
    MaskBits();
    assert Shl(m, FromOffset) == Shr(m, FromOffset);
    ReadField(m, FromOffset, SpaceSize, SpaceMask);
    ReadField(m, ToOffset, SpaceSize, SpaceMask);
    ReadField(m, PieceOffset, PieceSize, PieceMask);
    ReadField(m, PromotePieceOffset, PieceSize, PieceMask);
    ReadField(m, CapturePieceOffset, PieceSize, PieceMask);
  }

  /** `flag & m != 0`. */
  predicate Tests(m: Move, flag: Word)
  {
    And(flag, m) != Zero()
  }

  /** Testing against `1 << k` reads bit k. */
  lemma TestsBit(m: Move, k: nat)
    requires k < 64
    ensures Tests(m, Bit(k)) <==> m[k]
  {
    BitIsSingle(k);
    if m[k] {
      assert And(Bit(k), m)[k];
    } else {
      assert And(Bit(k), m) == Zero();
    }
  }

  function PawnJump(m: Move): (r: bool)
    ensures r <==> m[58]
  {
    TestsBit(m, 58);
    Tests(m, PawnJumpFlag)
  }

  function CastleK(m: Move): (r: bool)
    ensures r <==> m[59]
  {
    TestsBit(m, 59);
    Tests(m, CastleKFlag)
  }

  function CastleQ(m: Move): (r: bool)
    ensures r <==> m[60]
  {
    TestsBit(m, 60);
    Tests(m, CastleQFlag)
  }

  function Promote(m: Move): (r: bool)
    ensures r <==> m[61]
  {
    TestsBit(m, 61);
    Tests(m, PromoteFlag)
  }

  function Capture(m: Move): (r: bool)
    ensures r <==> m[62]
  {
    TestsBit(m, 62);
    Tests(m, CaptureFlag)
  }

  /** `turn()`: WHITE unless the turn flag is set. */
  function Turn(m: Move): (r: Colour)
    ensures r == BLACK <==> m[63]
  {
    TestsBit(m, 63);
    if !Tests(m, TurnFlag) then WHITE else BLACK
  }

  // ---------------------------------------------------------------------
  // Packing
  // ---------------------------------------------------------------------

  /** The value half of `packMove`: each field shifted in, capture piece first. */
  function PackFields(capturePiece: int, promotePiece: int, piece: int, to: int, from: int): Move
  {
    var m := Uint64(capturePiece);
    var m := Or(Shl(m, PieceSize), Uint64(promotePiece));
    var m := Or(Shl(m, PieceSize), Uint64(piece));
    var m := Or(Shl(m, SpaceSize), Uint64(to));
    Or(Shl(m, SpaceSize), Uint64(from))
  }

  /** The widths `packMove` assumes: a square in six bits, a piece in three. */
  predicate FieldsFit(from: int, to: int, piece: int, promotePiece: int, capturePiece: int)
  {
    0 <= from < 64 && 0 <= to < 64
    && 0 <= piece < 8 && 0 <= promotePiece < 8 && 0 <= capturePiece < 8
  }

  /** Where each packed value lands: its bits, side by side, with bits 21..63 clear. */
  lemma PackFieldsLayout(c: int, p: int, pc: int, t: int, f: int)
    requires FieldsFit(f, t, pc, p, c)
    ensures forall k | 0 <= k < 64 ::
              PackFields(c, p, pc, t, f)[k] ==
                (if k < 6 then Bits(f, 64)[k]
                 else if k < 12 then Bits(t, 64)[k - 6]
                 else if k < 15 then Bits(pc, 64)[k - 12]
                 else if k < 18 then Bits(p, 64)[k - 15]
                 else if k < 21 then Bits(c, 64)[k - 18]
                 else false)
  {
    SmallUint64(c, 3);
    SmallUint64(p, 3);
    SmallUint64(pc, 3);
    SmallUint64(t, 6);
    SmallUint64(f, 6);
    var m1 := Uint64(c);
    var m2 := Or(Shl(m1, PieceSize), Uint64(p));
    assert forall k | 0 <= k < 64 :: m2[k] == (if k < 3 then Bits(p, 64)[k] else if k < 6 then Bits(c, 64)[k - 3] else false);
    var m3 := Or(Shl(m2, PieceSize), Uint64(pc));
    assert forall k | 0 <= k < 64 :: m3[k] == (if k < 3 then Bits(pc, 64)[k] else if k < 9 then m2[k - 3] else false);
    var m4 := Or(Shl(m3, SpaceSize), Uint64(t));
    assert forall k | 0 <= k < 64 :: m4[k] == (if k < 6 then Bits(t, 64)[k] else if k < 15 then m3[k - 6] else false);
    var m5 := Or(Shl(m4, SpaceSize), Uint64(f));
    assert forall k | 0 <= k < 64 :: m5[k] == (if k < 6 then Bits(f, 64)[k] else if k < 21 then m4[k - 6] else false);
  }

  /** The field of width `size` at `off` holds x when the layout puts x's bits there. */
  lemma FieldHolds(m: Move, off: nat, size: nat, x: nat)
    requires off + size <= 64 && x < Pow2(size)
    requires forall k | 0 <= k < size :: m[off + k] == Bits(x, 64)[k]
    ensures FieldOf(m, off, size) == x
  {
    BitsPrefix(x, 64, size);
    BitsValue(x, size);
    assert m[off..off + size] == Bits(x, size);
  }

  /** Unpacking the value fields returns what was packed, and no flag is set. */
  lemma PackFieldsRoundTrip(c: int, p: int, pc: int, t: int, f: int)
    requires FieldsFit(f, t, pc, p, c)
    ensures From(PackFields(c, p, pc, t, f)) == f
    ensures To(PackFields(c, p, pc, t, f)) == t
    ensures MovingPiece(PackFields(c, p, pc, t, f)) == pc
    ensures PromotedPiece(PackFields(c, p, pc, t, f)) == p
    ensures CapturePiece(PackFields(c, p, pc, t, f)) == c
    ensures forall k | 21 <= k < 64 :: !PackFields(c, p, pc, t, f)[k]
  {
    var m := PackFields(c, p, pc, t, f);
    PackFieldsLayout(c, p, pc, t, f);
    FieldHolds(m, 0, 6, f);
    FieldHolds(m, 6, 6, t);
    FieldHolds(m, 12, 3, pc);
    FieldHolds(m, 15, 3, p);
    FieldHolds(m, 18, 3, c);
  }

  /** `m | flag` when the condition holds, m otherwise. */
  function WithFlag(m: Move, cond: bool, flag: Word): (r: Move)
    ensures forall k | 0 <= k < 64 :: r[k] == (m[k] || (cond && flag[k]))
  {
    if cond then Or(m, flag) else m
  }

  /** The condition under which `packMove` sets the pawn-jump flag. */
  predicate IsPawnJump(from: int, to: int, turn: int)
  {
    (turn == WHITE && from - to == 16) || (turn == BLACK && from - to == -16)
  }

  /**
   * The flag half of `packMove`: promotion, capture and turn in that order,
   * then for a king a king-side castle when `from - to == -2`, else a
   * queen-side castle when `from - to == 2`; for a pawn the jump flag.
   */
  function PackFlags(fields: Move, from: int, to: int, piece: int, promotePiece: int,
                     turn: int, capture: bool): (m: Move)
    ensures forall k | 0 <= k < 58 :: m[k] == fields[k]
    ensures m[58] <==> fields[58] || (piece == PAWN && IsPawnJump(from, to, turn))
    ensures m[59] <==> fields[59] || (piece == KING && to == from + 2)
    ensures m[60] <==> fields[60] || (piece == KING && to == from - 2)
    ensures m[61] <==> fields[61] || promotePiece != 0
    ensures m[62] <==> fields[62] || capture
    ensures m[63] <==> fields[63] || turn == BLACK
  {
    BitIsSingle(58); BitIsSingle(59); BitIsSingle(60);
    BitIsSingle(61); BitIsSingle(62); BitIsSingle(63);
    var m := WithFlag(fields, promotePiece != 0, PromoteFlag);
    var m := WithFlag(m, capture, CaptureFlag);
    var m := WithFlag(m, turn == BLACK, TurnFlag);
    if piece == KING then
      if from - to == -2 then Or(m, CastleKFlag)
      else if from - to == 2 then Or(m, CastleQFlag)
      else m
    else if piece == PAWN then
      WithFlag(m, IsPawnJump(from, to, turn), PawnJumpFlag)
    else m
  }

  /**
   * `packMove`. When every value fits its field, each accessor reads back
   * what was packed and each flag is set exactly when its condition holds.
   */
  function PackMove(from: int, to: int, piece: int, promotePiece: int, capturePiece: int,
                    turn: int, capture: bool): (m: Move)
    ensures FieldsFit(from, to, piece, promotePiece, capturePiece) ==>
              From(m) == from && To(m) == to && MovingPiece(m) == piece
              && PromotedPiece(m) == promotePiece && CapturePiece(m) == capturePiece
    ensures FieldsFit(from, to, piece, promotePiece, capturePiece) ==>
              (Promote(m) <==> promotePiece != 0)
              && (Capture(m) <==> capture)
              && (Turn(m) == if turn == BLACK then BLACK else WHITE)
              && (CastleK(m) <==> piece == KING && to == from + 2)
              && (CastleQ(m) <==> piece == KING && to == from - 2)
              && (PawnJump(m) <==> piece == PAWN && ((turn == WHITE && to == from - 16)
                                                    || (turn == BLACK && to == from + 16)))
  {
    var fields := PackFields(capturePiece, promotePiece, piece, to, from);
    var m := PackFlags(fields, from, to, piece, promotePiece, turn, capture);
    PackedFieldsReadBack(from, to, piece, promotePiece, capturePiece, fields, m);
    PackedFlagsReadBack(from, to, piece, promotePiece, capturePiece, turn, capture, fields, m);
    m
  }

  lemma PackedFlagsReadBack(from: int, to: int, piece: int, promotePiece: int, capturePiece: int,
                            turn: int, capture: bool, fields: Move, m: Move)
    requires fields == PackFields(capturePiece, promotePiece, piece, to, from)
    requires m == PackFlags(fields, from, to, piece, promotePiece, turn, capture)
    ensures FieldsFit(from, to, piece, promotePiece, capturePiece) ==>
              (Promote(m) <==> promotePiece != 0)
              && (Capture(m) <==> capture)
              && (Turn(m) == if turn == BLACK then BLACK else WHITE)
              && (CastleK(m) <==> piece == KING && to == from + 2)
              && (CastleQ(m) <==> piece == KING && to == from - 2)
              && (PawnJump(m) <==> piece == PAWN && ((turn == WHITE && to == from - 16)
                                                    || (turn == BLACK && to == from + 16)))
  {
    if FieldsFit(from, to, piece, promotePiece, capturePiece) {
      PackFieldsRoundTrip(capturePiece, promotePiece, piece, to, from);
      assert !fields[58] && !fields[59] && !fields[60];
      assert !fields[61] && !fields[62] && !fields[63];
    }
  }

  lemma PackedFieldsReadBack(from: int, to: int, piece: int, promotePiece: int, capturePiece: int,
                             fields: Move, m: Move)
    requires fields == PackFields(capturePiece, promotePiece, piece, to, from)
    requires forall k | 0 <= k < 58 :: m[k] == fields[k]
    ensures FieldsFit(from, to, piece, promotePiece, capturePiece) ==>
              From(m) == from && To(m) == to && MovingPiece(m) == piece
              && PromotedPiece(m) == promotePiece && CapturePiece(m) == capturePiece
              && forall k | 21 <= k < 58 :: !m[k]
  {
    if FieldsFit(from, to, piece, promotePiece, capturePiece) {
      PackFieldsRoundTrip(capturePiece, promotePiece, piece, to, from);
      assert m[..21] == fields[..21];
      SameFields(m, fields);
    }
  }

  /** Two words that agree on bits 0..20 have the same field accessors. */
  lemma SameFields(m: Move, n: Move)
    requires m[..21] == n[..21]
    ensures From(m) == From(n) && To(m) == To(n) && MovingPiece(m) == MovingPiece(n)
    ensures PromotedPiece(m) == PromotedPiece(n) && CapturePiece(m) == CapturePiece(n)
  {
    assert m[0..6] == m[..21][0..6] == n[..21][0..6] == n[0..6];
    assert m[6..12] == m[..21][6..12] == n[..21][6..12] == n[6..12];
    assert m[12..15] == m[..21][12..15] == n[..21][12..15] == n[12..15];
    assert m[15..18] == m[..21][15..18] == n[..21][15..18] == n[15..18];
    assert m[18..21] == m[..21][18..21] == n[..21][18..21] == n[18..21];
  }

  // ---------------------------------------------------------------------
  // Notation
  // ---------------------------------------------------------------------

  /**
   * `string()`: "0-0" or "0-0-0" for a castle, otherwise the piece letter,
   * the from square, an "x" for a capture, the to square and, for a
   * promotion, "=" and the promotion letter. The piece names table has six
   * entries, so a piece field of 6 or 7 is an index out of range.
   */
  function MoveString(m: Move): (s: string)
    requires MovingPiece(m) < 6
    requires Promote(m) ==> PromotedPiece(m) < 6
    ensures CastleK(m) ==> s == "0-0"
    ensures !CastleK(m) && CastleQ(m) ==> s == "0-0-0"
  {
    if CastleK(m) then "0-0"
    else if CastleQ(m) then "0-0-0"
    else MoveNotation(MovingPiece(m), From(m), Capture(m), To(m), Promote(m), PromotedPiece(m))
  }

  /** The notation of a move that is not a castle. */
  function MoveNotation(piece: Kind, from: int, capture: bool, to: int, promote: bool, promoted: int): string
    requires OnBoard(from) && OnBoard(to)
    requires promote ==> 0 <= promoted < 6
  {
    PieceNamesShort[piece] + SquareToAlgebraic(from)
    + (if capture then "x" else "")
    + SquareToAlgebraic(to)
    + (if promote then "=" + PieceNamesShort[promoted] else "")
  }

  /**
   * The notation of an ordinary move can be read back: after the piece
   * letter (none for a pawn) come the two-character from-square name, an "x"
   * exactly for a capture, the to-square name, and anything more exactly for
   * a promotion, "=" then the promotion letter.
   */
  lemma MoveNotationReadsBack(piece: Kind, from: int, capture: bool, to: int, promote: bool, promoted: int)
    requires OnBoard(from) && OnBoard(to)
    requires promote ==> 0 <= promoted < 6
    ensures var s := MoveNotation(piece, from, capture, to, promote, promoted);
            var n := if piece == PAWN then 0 else 1;
            var j := n + 2 + (if capture then 1 else 0);
            j + 2 <= |s|
            && s[..n] == PieceNamesShort[piece]
            && AlgebraicToSquare(s[n..n + 2]) == from
            && (s[n + 2] == 'x' <==> capture)
            && AlgebraicToSquare(s[j..j + 2]) == to
            && (j + 2 < |s| <==> promote)
            && (promote ==> s[j + 2] == '=' && s[j + 3..] == PieceNamesShort[promoted])
            && s[0] != '0'
  {
    var name := PieceNamesShort[piece];
    var f := SquareToAlgebraic(from);
    var x := if capture then "x" else "";
    var t := SquareToAlgebraic(to);
    var p := if promote then "=" + PieceNamesShort[promoted] else "";
    assert IsSquareName(f) && AlgebraicToSquare(f) == from by {
      SquareNameRoundTrip(from);
    }
    assert IsSquareName(t) && AlgebraicToSquare(t) == to by {
      SquareNameRoundTrip(to);
    }
    ShortName(piece);
    assert promote ==> p[1..] == PieceNamesShort[promoted];
    var s := MoveNotation(piece, from, capture, to, promote, promoted);
    NotationParts(name, f, x, t, p, s);
  }

  /** Short names: none for a pawn, one letter, not '0', for the others. */
  lemma ShortName(piece: Kind)
    ensures var name := PieceNamesShort[piece];
            |name| == (if piece == PAWN then 0 else 1) && (|name| == 1 ==> name[0] != '0')
  {
  }

  /** The parts of a move string, found again at their places. */
  lemma NotationParts(name: string, f: string, x: string, t: string, p: string, s: string)
    requires s == name + f + x + t + p
    requires |name| <= 1 && (|name| == 1 ==> name[0] != '0') && IsSquareName(f) && IsSquareName(t)
    requires x == "" || x == "x"
    requires p == "" || p[0] == '='
    ensures var n := |name|;
            var j := n + 2 + |x|;
            j + 2 <= |s| && s[..n] == name && s[n..n + 2] == f
            && (s[n + 2] == 'x' <==> x == "x") && s[j..j + 2] == t
            && (j + 2 < |s| <==> p != "") && (p != "" ==> s[j + 2] == '=' && s[j + 3..] == p[1..])
            && s[0] != '0'
  {
    NotationSplits(name, f, x, t, p);
    var j := |name| + 2 + |x|;
    if p != "" {
      assert s[j + 3..] == s[j + 2..][1..];
    }
  }

  /** Where the parts of a concatenated move string sit. */
  lemma NotationSplits(name: string, f: string, x: string, t: string, p: string)
    requires |name| <= 1 && |f| == 2 && |x| <= 1 && |t| == 2
    ensures var s := name + f + x + t + p;
            var n := |name|;
            var j := n + 2 + |x|;
            |s| == j + 2 + |p|
            && s[..n] == name && s[n..n + 2] == f && s[j..j + 2] == t && s[j + 2..] == p
            && s[n + 2] == (if |x| == 1 then x[0] else t[0])
            && s[0] == (if n == 1 then name[0] else f[0])
  {
    var s := name + f + x + t + p;
    var n := |name|;
    var j := n + 2 + |x|;
    assert s[..n] == name;
    assert s[n..n + 2] == f;
    assert s[j..j + 2] == t;
    assert s[j + 2..] == p;
  }

  /** Only castle notation begins with '0'. */
  lemma CastleNotationStandsApart(m: Move)
    requires MovingPiece(m) < 6
    requires Promote(m) ==> PromotedPiece(m) < 6
    ensures MoveString(m)[0] == '0' <==> CastleK(m) || CastleQ(m)
  {
    if !CastleK(m) && !CastleQ(m) {
      MoveNotationReadsBack(MovingPiece(m), From(m), Capture(m), To(m), Promote(m), PromotedPiece(m));
    }
  }
}
