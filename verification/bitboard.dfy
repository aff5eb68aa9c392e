/**
 * Bitboards: a 64-bit word read as a set of board squares.
 *
 * Square i (0 = a8, 7 = h8, 56 = a1, 63 = h1) is bit 63 - i of the word, so
 * square 0 is the most significant bit. The model keeps the set of squares
 * whose bit is one. Every word operation the engine performs is then a set
 * operation: `&` is intersection, `|` union and `&^` difference.
 */
module Bitboards {
  import opened Words

  /** A square index on the board. */
  predicate OnBoard(i: int) { 0 <= i < 64 }

  /** The squares whose bit is one in a 64-bit word. */
  type Bitboard = b: set<int> | forall i | i in b :: OnBoard(i)

  /**
   * `checkBit(b, i)` tests the bit `1 << (63 - i)`. For a negative square the
   * shift count is 64 or more, the mask is zero and the test is false; a
   * square above 63 makes the shift count negative, a run-time panic, so it is
   * excluded by the precondition.
   */
  predicate CheckBit(b: Bitboard, i: int)
    requires i <= 63
    ensures CheckBit(b, i) ==> OnBoard(i)
  {
    i in b
  }

  /** `setBit(b, i)`: ors in the bit of square i (a no-op for a negative square). */
  function SetBit(b: Bitboard, i: int): (r: Bitboard)
    requires i <= 63
    ensures forall j | OnBoard(j) :: CheckBit(r, j) <==> j == i || CheckBit(b, j)
    ensures i < 0 ==> r == b
  {
    if i < 0 then b else b + {i}
  }

  /** `clearBit(b, i)`: and-nots the bit of square i (a no-op for a negative square). */
  function ClearBit(b: Bitboard, i: int): (r: Bitboard)
    requires i <= 63
    ensures forall j | OnBoard(j) :: CheckBit(r, j) <==> j != i && CheckBit(b, j)
    ensures i < 0 ==> r == b
  {
    if i < 0 then b else b - {i}
  }

  /** Setting a square then testing it reads one; clearing it reads zero. */
  lemma SetThenCheck(b: Bitboard, i: int)
    requires OnBoard(i)
    ensures CheckBit(SetBit(b, i), i)
    ensures !CheckBit(ClearBit(b, i), i)
  {
  }

  /** The "no square" value -1 used for a missing en-passant square: setting it
    * changes nothing and testing it reads zero. */
  lemma NoSquare(b: Bitboard)
    ensures SetBit(b, -1) == b && ClearBit(b, -1) == b
    ensures !CheckBit(b, -1)
  {
  }

  /** Clearing a square that was set, after setting a square that was clear,
    * gives the original board back (and the other way round). */
  lemma SetClearInverse(b: Bitboard, i: int)
    requires OnBoard(i)
    ensures !CheckBit(b, i) ==> ClearBit(SetBit(b, i), i) == b
    ensures CheckBit(b, i) ==> SetBit(ClearBit(b, i), i) == b
  {
  }

  // ---------------------------------------------------------------------
  // Counting and scanning. The Go library functions bits.OnesCount64,
  // bits.LeadingZeros64 and bits.TrailingZeros64 are written out as scans
  // over the word's bits; since bit 63 - k is square k, leading zeros are
  // counted from square 0 upwards and trailing zeros from square 63 down.
  // ---------------------------------------------------------------------

  /** Number of one bits among squares k..63. */
  function OnesFrom(b: Bitboard, k: int): (r: nat)
    requires 0 <= k <= 64
    ensures r <= 64 - k
    decreases 64 - k
  {
    if k == 64 then 0 else (if k in b then 1 else 0) + OnesFrom(b, k + 1)
  }

  /** The squares of b at or above k. */
  function SquaresFrom(b: Bitboard, k: int): (r: set<int>)
    ensures forall i :: i in r <==> i in b && k <= i
  {
    set i | i in b && k <= i
  }

  lemma {:induction false} OnesFromCounts(b: Bitboard, k: int)
    requires 0 <= k <= 64
    ensures OnesFrom(b, k) == |SquaresFrom(b, k)|
    decreases 64 - k
  {
    if k == 64 {
      assert SquaresFrom(b, k) == {};
    } else {
      OnesFromCounts(b, k + 1);
      if k in b {
        assert SquaresFrom(b, k) == SquaresFrom(b, k + 1) + {k};
      } else {
        assert SquaresFrom(b, k) == SquaresFrom(b, k + 1);
      }
    }
  }

  /** `countBits(b)`, i.e. bits.OnesCount64: the number of squares in the set. */
  function CountBits(b: Bitboard): (r: nat)
    ensures r == |b|
    ensures r <= 64
  {
    OnesFromCounts(b, 0);
    assert SquaresFrom(b, 0) == b;
    OnesFrom(b, 0)
  }

  /**
   * Number of zero bits met scanning from square k upwards before the first
   * one bit. The scan lands on the smallest square of b at or above k, or
   * runs off the board.
   */
  function ZerosUpFrom(b: Bitboard, k: int): (r: nat)
    requires 0 <= k <= 64
    ensures k + r <= 64
    ensures k + r < 64 ==> k + r in b
    ensures forall j | j in b && k <= j :: k + r <= j
    decreases 64 - k
  {
    if k == 64 || k in b then 0 else 1 + ZerosUpFrom(b, k + 1)
  }

  /**
   * Number of zero bits met scanning from square k downwards before the first
   * one bit. The scan lands on the largest square of b at or below k, or runs
   * off the board.
   */
  function ZerosDownFrom(b: Bitboard, k: int): (r: nat)
    requires -1 <= k <= 63
    ensures k - r >= -1
    ensures k - r >= 0 ==> k - r in b
    ensures forall j | j in b && j <= k :: j <= k - r
    decreases k
  {
    if k == -1 || k in b then 0 else 1 + ZerosDownFrom(b, k - 1)
  }

  /** bits.LeadingZeros64: zero bits above the highest one bit (64 for zero). */
  function LeadingZeros64(b: Bitboard): (r: nat)
    ensures r <= 64
  {
    ZerosUpFrom(b, 0)
  }

  /** bits.TrailingZeros64: zero bits below the lowest one bit (64 for zero). */
  function TrailingZeros64(b: Bitboard): (r: nat)
    ensures r <= 64
  {
    ZerosDownFrom(b, 63)
  }

  /** `leftBit(b)`: the smallest square of b, or 64 for the empty board. */
  function LeftBit(b: Bitboard): (r: int)
    ensures b == {} <==> r == 64
    ensures b != {} ==> r in b && forall j | j in b :: r <= j
  {
    LeadingZeros64(b)
  }

  /** `rightBit(b)`: the largest square of b, or -1 for the empty board. */
  function RightBit(b: Bitboard): (r: int)
    ensures b == {} <==> r == -1
    ensures b != {} ==> r in b && forall j | j in b :: j <= r
  {
    63 - TrailingZeros64(b)
  }

  /** The squares of a sequence come in strictly increasing order. */
  predicate StrictlyIncreasing(s: seq<int>)
  {
    forall i, j | 0 <= i < j < |s| :: s[i] < s[j]
  }

  /**
   * `forEachBit(b, f)`: the squares f is called with, in call order. Each
   * round takes the leading one bit (the smallest square) and clears it, so
   * every square of b is visited exactly once, in increasing order, and the
   * loop ends once the board is empty.
   */
  function ForEachBit(b: Bitboard): (visits: seq<int>)
    ensures StrictlyIncreasing(visits)
    ensures forall i :: i in visits <==> i in b
    ensures |visits| == |b|
    decreases |b|
  {
    if b == {} then []
    else
      var i := LeftBit(b);
      var rest := ClearBit(b, i);
      assert rest == b - {i};
      assert |rest| == |b| - 1;
      var tail := ForEachBit(rest);
      PrependSmallest(i, tail);
      [i] + tail
  }

  /** Putting a square below every visited square in front keeps the order. */
  lemma PrependSmallest(i: int, tail: seq<int>)
    requires StrictlyIncreasing(tail)
    requires forall k | 0 <= k < |tail| :: i < tail[k]
    ensures StrictlyIncreasing([i] + tail)
  {
    var s := [i] + tail;
    forall x, y | 0 <= x < y < |s|
      ensures s[x] < s[y]
    {
      if x > 0 {
        assert s[x] == tail[x - 1] && s[y] == tail[y - 1];
      }
    }
  }

  // ---------------------------------------------------------------------
  // The abstraction: a word and the set of squares it stands for.
  // ---------------------------------------------------------------------

  /** Bit 63 - i of a word: the bit of square i. */
  predicate SquareBit(w: Word, i: int)
    requires OnBoard(i)
  {
    w[63 - i]
  }

  /** The squares whose bit is one. */
  function SquaresOf(w: Word): (b: Bitboard)
    ensures forall i | OnBoard(i) :: i in b <==> SquareBit(w, i)
  {
    set i | 0 <= i < 64 && SquareBit(w, i)
  }

  /** The set determines the word: no two words stand for the same squares. */
  lemma SquaresOfInjective(v: Word, w: Word)
    requires SquaresOf(v) == SquaresOf(w)
    ensures v == w
  {
    forall k | 0 <= k < 64
      ensures v[k] == w[k]
    {
      assert v[k] == SquareBit(v, 63 - k) == (63 - k in SquaresOf(v));
    }
  }

  /** Every set of squares is the abstraction of some word. */
  lemma SquaresOfOnto(b: Bitboard)
    ensures SquaresOf(seq(64, k requires 0 <= k < 64 => 63 - k in b)) == b
  {
  }

  /** `|`, `&` and `&^` on words are union, intersection and difference of squares. */
  lemma SquaresOfOperators(v: Word, w: Word)
    ensures SquaresOf(Or(v, w)) == SquaresOf(v) + SquaresOf(w)
    ensures SquaresOf(And(v, w)) == SquaresOf(v) * SquaresOf(w)
    ensures SquaresOf(AndNot(v, w)) == SquaresOf(v) - SquaresOf(w)
  {
  }

  /**
   * `1 << (63 - i)` for a square index i <= 63: the single bit of square i,
   * or zero when i is negative (a shift count of 64 or more clears every bit).
   */
  function SquareMask(i: int): (r: Word)
    requires i <= 63
    ensures SquaresOf(r) == if i < 0 then {} else {i}
  {
    SquareMaskIsSquare(i);
    Shl(Uint64(1), 63 - i)
  }

  lemma SquareMaskIsSquare(i: int)
    requires i <= 63
    ensures SquaresOf(Shl(Uint64(1), 63 - i)) == if i < 0 then {} else {i}
  {
    var r := Shl(Uint64(1), 63 - i);
    if i >= 0 {
      BitIsSingle(63 - i);
      assert r == Bit(63 - i);
      forall j | OnBoard(j)
        ensures j in SquaresOf(r) <==> j == i
      {
        assert SquareBit(r, j) == r[63 - j];
      }
    } else {
      assert forall k | 0 <= k < 64 :: !r[k];
      assert SquaresOf(r) == {};
    }
  }

  /** The word-level `checkBit`, `setBit` and `clearBit` are the set operations above. */
  lemma WordBitOperations(w: Word, i: int)
    requires i <= 63
    ensures (And(SquareMask(i), w) != Zero()) == CheckBit(SquaresOf(w), i)
    ensures SquaresOf(Or(SquareMask(i), w)) == SetBit(SquaresOf(w), i)
    ensures SquaresOf(AndNot(w, SquareMask(i))) == ClearBit(SquaresOf(w), i)
  {
    SquaresOfOperators(SquareMask(i), w);
    SquaresOfOperators(w, SquareMask(i));
    if CheckBit(SquaresOf(w), i) {
      assert And(SquareMask(i), w)[63 - i];
    } else {
      SquaresOfInjective(And(SquareMask(i), w), Zero());
    }
  }
}
