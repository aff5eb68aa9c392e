/**
 * Unsigned 64-bit words, as Go's `uint64`, kept as their 64 bits with the
 * least significant bit first: bit k has value 2^k. The bitwise operators the
 * engine uses on words are written out bit by bit.
 */
module Words {

  /** A `uint64`: exactly 64 bits. */
  type Word = w: seq<bool> | |w| == 64 witness seq(64, k => false)

  /** The zero word. */
  function Zero(): (r: Word)
    ensures forall k | 0 <= k < 64 :: !r[k]
  {
    seq(64, k => false)
  }

  /** `a | b`. */
  function Or(a: Word, b: Word): (r: Word)
    ensures forall k | 0 <= k < 64 :: r[k] == (a[k] || b[k])
  {
    seq(64, k requires 0 <= k < 64 => a[k] || b[k])
  }

  /** `a & b`. */
  function And(a: Word, b: Word): (r: Word)
    ensures forall k | 0 <= k < 64 :: r[k] == (a[k] && b[k])
  {
    seq(64, k requires 0 <= k < 64 => a[k] && b[k])
  }

  /** `a &^ b`: the bits of a that are clear in b. */
  function AndNot(a: Word, b: Word): (r: Word)
    ensures forall k | 0 <= k < 64 :: r[k] == (a[k] && !b[k])
  {
    seq(64, k requires 0 <= k < 64 => a[k] && !b[k])
  }

  /** `a << n`: every bit moves n places up; bits moved past bit 63 are lost. */
  function Shl(a: Word, n: nat): (r: Word)
    ensures forall k | 0 <= k < 64 :: r[k] == (n <= k && a[k - n])
  {
    seq(64, k requires 0 <= k < 64 => n <= k && a[k - n])
  }

  /** `a >> n`: every bit moves n places down; zeros come in at the top. */
  function Shr(a: Word, n: nat): (r: Word)
    ensures forall k | 0 <= k < 64 :: r[k] == (k + n < 64 && a[k + n])
  {
    seq(64, k requires 0 <= k < 64 => k + n < 64 && a[k + n])
  }

  function Pow2(n: nat): (r: nat)
    ensures r >= 1
  {
    if n == 0 then 1 else 2 * Pow2(n - 1)
  }

  /** The number a sequence of bits stands for, least significant bit first. */
  function Value(s: seq<bool>): (v: nat)
    ensures v < Pow2(|s|)
  {
    if s == [] then 0 else (if s[0] then 1 else 0) + 2 * Value(s[1..])
  }

  /** The low n bits of x. */
  function Bits(x: nat, n: nat): (s: seq<bool>)
    ensures |s| == n
  {
    if n == 0 then [] else [x % 2 == 1] + Bits(x / 2, n - 1)
  }

  /** 2^64, the number of `uint64` values. */
  const TwoTo64: nat := 0x1_0000_0000_0000_0000

  lemma TwoTo64IsPow2()
    ensures Pow2(64) == TwoTo64
  {
    assert Pow2(8) == 256;
    Pow2Add(8, 8);
    Pow2Add(16, 16);
    Pow2Add(32, 32);
  }

  lemma {:induction false} Pow2Add(a: nat, b: nat)
    ensures Pow2(a + b) == Pow2(a) * Pow2(b)
    decreases a
  {
    if a > 0 {
      Pow2Add(a - 1, b);
    }
  }

  /**
   * `uint64(x)` for an int: its two's-complement low 64 bits. It is written
   * bit by bit so that a literal x does not make the solver expand all 64
   * bits wherever the word appears; `SmallUint64` gives it as `Bits`.
   */
  function Uint64(x: int): Word
  {
    seq(64, k requires 0 <= k < 64 => Bits(x % TwoTo64, 64)[k])
  }

  lemma {:induction false} Pow2Monotone(a: nat, b: nat)
    requires a <= b
    ensures Pow2(a) <= Pow2(b)
    decreases b
  {
    if a < b {
      Pow2Monotone(a, b - 1);
    }
  }

  lemma ModOfSmall(x: nat, d: nat)
    requires x < d
    ensures x % d == x
  {
  }

  /** A number below 2^w, w <= 64, converts to the word of its own bits. */
  lemma SmallUint64(x: nat, w: nat)
    requires w <= 64 && x < Pow2(w)
    ensures Uint64(x) == Bits(x, 64)
    ensures forall k | w <= k < 64 :: !Uint64(x)[k]
    ensures Value(Uint64(x)) == x
  {
    Pow2Monotone(w, 64);
    TwoTo64IsPow2();
    ModOfSmall(x, Pow2(64));
    BitsHigh(x, 64, w);
    BitsValue(x, 64);
  }

  /** The first `size` bits of x are its low `size` bits. */
  lemma {:induction false} BitsPrefix(x: nat, n: nat, size: nat)
    requires size <= n
    ensures Bits(x, n)[..size] == Bits(x, size)
  {
    if size > 0 {
      BitsPrefix(x / 2, n - 1, size - 1);
      assert Bits(x, n)[..size][1..] == Bits(x / 2, n - 1)[..size - 1];
    }
  }

  /** A number below 2^w has no bit at or above w. */
  lemma {:induction false} BitsHigh(x: nat, n: nat, w: nat)
    requires x < Pow2(w)
    ensures forall k | w <= k < n :: !Bits(x, n)[k]
  {
    if n > 0 {
      var w' := if w == 0 then 0 else w - 1;
      BitsHigh(x / 2, n - 1, w');
      var s := Bits(x, n);
      forall k | w <= k < n
        ensures !s[k]
      {
        if k == 0 {
          assert w == 0 && x == 0;
        } else {
          assert s[k] == Bits(x / 2, n - 1)[k - 1];
        }
      }
    }
  }

  /** Reading back the low n bits of a number below 2^n gives the number. */
  lemma {:induction false} BitsValue(x: nat, n: nat)
    requires x < Pow2(n)
    ensures Value(Bits(x, n)) == x
  {
    if n > 0 {
      BitsValue(x / 2, n - 1);
      assert Bits(x, n)[1..] == Bits(x / 2, n - 1);
    }
  }

  /** Bits at or above `size` add nothing to the value. */
  lemma {:induction false} ValueOfLowBits(s: seq<bool>, size: nat)
    requires size <= |s|
    requires forall k | size <= k < |s| :: !s[k]
    ensures Value(s) == Value(s[..size])
  {
    if size == 0 {
      ValueOfZeros(s);
    } else {
      ValueOfLowBits(s[1..], size - 1);
      assert s[..size][1..] == s[1..][..size - 1];
    }
  }

  lemma {:induction false} ValueOfZeros(s: seq<bool>)
    requires forall k | 0 <= k < |s| :: !s[k]
    ensures Value(s) == 0
  {
    if s != [] {
      ValueOfZeros(s[1..]);
    }
  }

  /** The bits of 2^w - 1 are w ones. */
  lemma {:induction false} BitsOfOnes(x: nat, w: nat, n: nat)
    requires x == Pow2(w) - 1
    ensures forall k | 0 <= k < n :: Bits(x, n)[k] == (k < w)
  {
    if n > 0 {
      var w' := if w == 0 then 0 else w - 1;
      assert x / 2 == Pow2(w') - 1;
      BitsOfOnes(x / 2, w', n - 1);
      var s := Bits(x, n);
      forall k | 0 <= k < n
        ensures s[k] == (k < w)
      {
        if k > 0 {
          assert s[k] == Bits(x / 2, n - 1)[k - 1];
        } else if w > 0 {
          assert x == 2 * Pow2(w') - 1;
        }
      }
    }
  }

  /**
   * `1 << k`: the word with only bit k set. It is written bit by bit so that
   * a literal k does not make the solver expand `Uint64(1)`; `BitIsSingle`
   * shows it is the shifted one.
   */
  function Bit(k: nat): (r: Word)
    requires k < 64
  {
    seq(64, j => j == k)
  }

  lemma BitIsSingle(k: nat)
    requires k < 64
    ensures Bit(k) == Shl(Uint64(1), k)
    ensures forall j | 0 <= j < 64 :: Bit(k)[j] == (j == k)
  {
    OneBits(1);
    ShiftedOne(Uint64(1), k);
  }

  /** The word of one has only bit 0 set (stated for a variable, which keeps the solver from expanding a literal). */
  lemma OneBits(x: nat)
    requires x == 1
    ensures Uint64(x)[0] && forall j | 1 <= j < 64 :: !Uint64(x)[j]
  {
    SmallUint64(x, 1);
  }

  /** Shifting a word whose only set bit is bit 0. */
  lemma ShiftedOne(one: Word, k: nat)
    requires k < 64 && one[0] && forall j | 1 <= j < 64 :: !one[j]
    ensures Shl(one, k) == Bit(k)
  {
    var s := Shl(one, k);
    forall j | 0 <= j < 64
      ensures s[j] == Bit(k)[j]
    {
    }
  }

  /** `2^w - 1`, the mask of the low w bits, written bit by bit like `Bit`. */
  function LowMask(w: nat): (r: Word)
    requires w <= 64
  {
    seq(64, k => k < w)
  }

  lemma LowMaskBits(w: nat)
    requires w <= 64
    ensures LowMask(w) == Uint64(Pow2(w) - 1)
    ensures forall k | 0 <= k < 64 :: LowMask(w)[k] == (k < w)
  {
    SmallUint64(Pow2(w) - 1, w);
    BitsOfOnes(Pow2(w) - 1, w, 64);
  }
}
