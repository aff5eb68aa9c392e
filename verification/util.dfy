/**
 * Square naming: board coordinates and the conversion between a square index
 * and its coordinate name ("a8" is square 0, "h1" is square 63).
 *
 * Go strings are byte strings. The names handled here come from FEN text,
 * which the model keeps as a sequence of Unicode scalar values; where the Go
 * code looks at bytes (`len(s)`, `s[1]`) the model computes the UTF-8 bytes.
 */
module Notation {
  import opened Bitboards

  // ---------------------------------------------------------------------
  // Coordinates
  // ---------------------------------------------------------------------

  /** `rank(i) = 8 - i/8`: rank 8 is the top row (squares 0..7). */
  function Rank(i: int): (r: int)
    requires OnBoard(i)
    ensures 1 <= r <= 8
  {
    8 - i / 8
  }

  /** `file(i) = i%8 + 1`: file 1 is the a-file. */
  function File(i: int): (r: int)
    requires OnBoard(i)
    ensures 1 <= r <= 8
  {
    i % 8 + 1
  }

  /** The square on a rank and file, both 1..8. */
  function Square(rank: int, file: int): (r: int)
    requires 1 <= rank <= 8 && 1 <= file <= 8
    ensures OnBoard(r)
    ensures Rank(r) == rank && File(r) == file
  {
    8 * (8 - rank) + file - 1
  }

  /** A square is determined by its rank and file. */
  lemma SquareOfCoordinates(i: int)
    requires OnBoard(i)
    ensures Square(Rank(i), File(i)) == i
  {
  }

  // ---------------------------------------------------------------------
  // Go byte and integer semantics
  // ---------------------------------------------------------------------

  /** Number of bytes of the UTF-8 encoding of one scalar value. */
  function RuneLength(c: char): (r: nat)
    ensures 1 <= r <= 4
    ensures r == 1 <==> c as int < 0x80
  {
    if c as int < 0x80 then 1
    else if c as int < 0x800 then 2
    else if c as int < 0x10000 then 3
    else 4
  }

  /** `len(s)` of a Go string: its UTF-8 byte count. */
  function Utf8Length(s: string): (r: nat)
    ensures r >= |s|
    ensures r == |s| <==> forall k | 0 <= k < |s| :: s[k] as int < 0x80
  {
    if s == [] then 0
    else
      var r := RuneLength(s[0]) + Utf8Length(s[1..]);
      assert forall k | 1 <= k < |s| :: s[k] == s[1..][k - 1];
      r
  }

  /** The first byte of the UTF-8 encoding of c (what `str[0]` reads). */
  function LeadByte(c: char): (r: int)
    ensures 0 <= r < 0x100
    ensures c as int < 0x80 ==> r == c as int
    ensures c as int >= 0x80 ==> r >= 0xC0
  {
    if c as int < 0x80 then c as int
    else if c as int < 0x800 then 0xC0 + c as int / 0x40
    else if c as int < 0x10000 then 0xE0 + c as int / 0x1000
    else 0xF0 + c as int / 0x40000
  }

  /** `int(b - '0')` for a byte b: byte subtraction wraps modulo 256. */
  function ByteMinusZero(b: int): (r: int)
    requires 0 <= b < 0x100
    ensures 0 <= r < 0x100
    ensures '0' as int <= b ==> r == b - '0' as int
    ensures b < '0' as int ==> r == b - '0' as int + 0x100
  {
    (b - '0' as int) % 0x100
  }

  /** Go's `/` on int truncates toward zero. */
  function GoQuot(a: int, d: int): (r: int)
    requires d > 0
    ensures a >= 0 ==> r == a / d
    ensures a < 0 ==> r == -((-a) / d)
  {
    if a >= 0 then a / d else -((-a) / d)
  }

  /** A non-negative dividend has a non-negative quotient. */
  lemma QuotientSign(b: int, d: int)
    requires b >= 0 && d > 0
    ensures b / d >= 0
  {
    var q := b / d;
    assert (q + 1) * d > b by { assert (q + 1) * d == q * d + d; }
    PositiveFactor(q + 1, d);
  }

  lemma PositiveFactor(x: int, d: int)
    requires d > 0 && x * d > 0
    ensures x > 0
  {
  }

  /**
   * Truncation toward zero, stated without Dafny's own division: the
   * quotient has the sign of the dividend, and what it leaves over lies
   * strictly within one divisor of zero, on the dividend's side.
   */
  lemma GoQuotTruncates(a: int, d: int)
    requires d > 0
    ensures a >= 0 ==> GoQuot(a, d) >= 0 && 0 <= a - GoQuot(a, d) * d < d
    ensures a <= 0 ==> GoQuot(a, d) <= 0 && -d < a - GoQuot(a, d) * d <= 0
  {
    var b := if a >= 0 then a else -a;
    var q := b / d;
    assert b == q * d + b % d && 0 <= b % d < d;
    QuotientSign(b, d);
    if a < 0 {
      assert GoQuot(a, d) == -q;
      assert a - GoQuot(a, d) * d == -(b - q * d);
    }
  }

  /** Go's `%` on int takes the sign of the dividend. */
  function GoRem(a: int, d: int): (r: int)
    requires d > 0
    ensures a == GoQuot(a, d) * d + r
    ensures -d < r < d
    ensures a >= 0 ==> 0 <= r
    ensures a < 0 ==> r <= 0
  {
    if a >= 0 then a % d else -((-a) % d)
  }

  // ---------------------------------------------------------------------
  // Decimal formatting (`fmt.Sprint` of an int)
  // ---------------------------------------------------------------------

  function DigitChar(d: int): (c: char)
    requires 0 <= d < 10
    ensures '0' <= c <= '9'
    ensures c as int - '0' as int == d
  {
    ('0' as int + d) as char
  }

  /** Decimal digits of a natural number, most significant first. */
  function Digits(n: nat): (s: string)
    ensures 1 <= |s|
    ensures forall k | 0 <= k < |s| :: '0' <= s[k] <= '9'
    ensures n < 10 ==> s == [DigitChar(n)]
  {
    if n < 10 then [DigitChar(n)] else Digits(n / 10) + [DigitChar(n % 10)]
  }

  /** The value of a string of decimal digits: the reference reading of `Digits`. */
  function DigitsValue(s: string): (v: int)
    requires forall k | 0 <= k < |s| :: '0' <= s[k] <= '9'
  {
    if s == [] then 0
    else 10 * DigitsValue(s[..|s| - 1]) + (s[|s| - 1] as int - '0' as int)
  }

  /** Reading back the printed digits gives the number. */
  lemma {:induction false} DigitsRoundTrip(n: nat)
    ensures DigitsValue(Digits(n)) == n
  {
    if n >= 10 {
      DigitsRoundTrip(n / 10);
      var s := Digits(n);
      assert s[..|s| - 1] == Digits(n / 10);
    }
  }

  /** `fmt.Sprint(n)` for an int: a minus sign, then the digits of |n|. */
  function Sprint(n: int): (s: string)
    ensures 1 <= |s|
    ensures n >= 0 ==> s == Digits(n)
    ensures n < 0 ==> s == "-" + Digits(-n)
  {
    if n < 0 then "-" + Digits(-n) else Digits(n)
  }

  /** A decimal numeral as `fmt.Sprint` writes it: an optional minus sign, then at least one digit. */
  predicate IsDecimal(s: string)
  {
    var start := if |s| > 0 && s[0] == '-' then 1 else 0;
    start < |s| && forall k | start <= k < |s| :: '0' <= s[k] <= '9'
  }

  /** The value of a decimal numeral, the minus sign negating the digits. */
  function ReadInt(s: string): int
    requires IsDecimal(s)
  {
    if s[0] == '-' then -DigitsValue(s[1..]) else DigitsValue(s)
  }

  /** `fmt.Sprint(n)` writes a decimal numeral that reads back as n, signed exactly when n is negative. */
  lemma SprintRoundTrip(n: int)
    ensures IsDecimal(Sprint(n))
    ensures Sprint(n)[0] == '-' <==> n < 0
    ensures ReadInt(Sprint(n)) == n
  {
    var s := Sprint(n);
    if n < 0 {
      var t := Digits(-n);
      assert s == ['-'] + t && s[1..] == t;
      assert forall k | 1 <= k < |s| :: s[k] == t[k - 1];
      DigitsRoundTrip(-n);
    } else {
      assert '0' <= s[0] <= '9';
      DigitsRoundTrip(n);
    }
  }

  // ---------------------------------------------------------------------
  // algebraicToSquare / squareToAlgebraic
  // ---------------------------------------------------------------------

  /** A well-formed square name: a file letter a..h then a rank digit 1..8. */
  predicate IsSquareName(s: string)
  {
    |s| == 2 && 'a' <= s[0] <= 'h' && '1' <= s[1] <= '8'
  }

  /** The file index (0 for 'a' .. 7 for 'h') the switch in `algebraicToSquare` picks. */
  function FileIndex(c: char): (r: int)
    requires 'a' <= c <= 'h'
    ensures 0 <= r < 8
  {
    c as int - 'a' as int
  }

  /**
   * `algebraicToSquare(s)`. A string whose byte length is not 2 gives 0, and
   * so does a first byte outside 'a'..'h'. Otherwise the result is the file
   * index plus `8 * (8 - (s[1] - '0'))`, with the byte subtraction wrapping:
   * the rank digit is not checked.
   */
  function AlgebraicToSquare(s: string): (r: int)
    ensures Utf8Length(s) != 2 ==> r == 0
    ensures |s| >= 1 && !('a' <= s[0] <= 'h') ==> r == 0
    ensures IsSquareName(s) ==> OnBoard(r) && File(r) == FileIndex(s[0]) + 1
                                && Rank(r) == s[1] as int - '0' as int
  {
    if Utf8Length(s) != 2 then 0
    // Two bytes in a single scalar value: the lead byte 0xC2..0xDF is no file letter.
    else if |s| != 2 then 0
    else if !('a' <= s[0] <= 'h') then 0
    else FileIndex(s[0]) + 8 * (8 - ByteMinusZero(s[1] as int))
  }

  /** A lone two-byte character passes the length test and then reads as no file. */
  lemma TwoByteCharacterIsNoSquare(c: char)
    requires 0x80 <= c as int < 0x800
    ensures AlgebraicToSquare([c]) == 0
  {
    assert Utf8Length([c]) == 2 by {
      assert [c][1..] == [];
    }
  }

  /** The rank digit is not validated: "a9" lands above the board and "a0" below it. */
  lemma RankDigitUnchecked()
    ensures AlgebraicToSquare("a9") == -8
    ensures AlgebraicToSquare("a0") == 64
    ensures AlgebraicToSquare("a8") == 0 && AlgebraicToSquare("h1") == 63
  {
    assert Utf8Length("a9") == 2 by { assert "a9"[1..][1..] == []; }
    assert Utf8Length("a0") == 2 by { assert "a0"[1..][1..] == []; }
    assert Utf8Length("a8") == 2 by { assert "a8"[1..][1..] == []; }
    assert Utf8Length("h1") == 2 by { assert "h1"[1..][1..] == []; }
  }

  /** The letter `squareToAlgebraic` emits for a remainder, if any. */
  function FileLetter(rem: int): (s: string)
    ensures 0 <= rem < 8 ==> s == [('a' as int + rem) as char]
    ensures !(0 <= rem < 8) ==> s == ""
  {
    if 0 <= rem < 8 then [('a' as int + rem) as char] else ""
  }

  /**
   * `squareToAlgebraic(s)`: the file letter chosen by `s % 8` (none when the
   * remainder is negative) followed by the decimal form of `8 - s/8`, both with
   * Go's truncating division.
   */
  function SquareToAlgebraic(q: int): (r: string)
    ensures OnBoard(q) ==> IsSquareName(r) && FileIndex(r[0]) + 1 == File(q)
                           && r[1] as int - '0' as int == Rank(q)
  {
    FileLetter(GoRem(q, 8)) + Sprint(8 - GoQuot(q, 8))
  }

  /** Names of off-board squares: "a9" above the board, "a0" below, a bare digit string for a negative non-multiple of 8. */
  lemma OffBoardNames()
    ensures SquareToAlgebraic(-8) == "a9"
    ensures SquareToAlgebraic(64) == "a0"
    ensures SquareToAlgebraic(-1) == "8"
  {
  }

  /** Naming a square and reading the name back gives the square. */
  lemma SquareNameRoundTrip(q: int)
    requires OnBoard(q)
    ensures |SquareToAlgebraic(q)| == 2
    ensures AlgebraicToSquare(SquareToAlgebraic(q)) == q
  {
    var s := SquareToAlgebraic(q);
    assert Utf8Length(s) == 2 by { assert s[1..][1..] == []; }
  }

  /** Reading a well-formed name and naming the square gives the name back. */
  lemma NameSquareRoundTrip(s: string)
    requires IsSquareName(s)
    ensures SquareToAlgebraic(AlgebraicToSquare(s)) == s
  {
    assert Utf8Length(s) == 2 by { assert s[1..][1..] == []; }
    var q := AlgebraicToSquare(s);
    var t := SquareToAlgebraic(q);
    assert t[0] == s[0];
    assert t[1] == s[1];
  }
}
