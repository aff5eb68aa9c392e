/**
 * `moveList.variation`: a line of moves as text, each move's `string()`
 * followed by one space, or "No Moves." for an empty list. Move strings
 * contain no space, so splitting the text at spaces gives the moves back.
 */
module Variations {
  import opened Bitboards
  import opened Notation
  import opened Pieces
  import opened Positions
  import opened Moves

  /** `m.string()` does not panic: the piece and, when promoting, the promoted piece have names. */
  predicate Printable(m: Move)
  {
    MovingPiece(m) < 6 && (Promote(m) ==> PromotedPiece(m) < 6)
  }

  /** The strings joined with a space after each one. */
  function Spaced(ss: seq<string>): string
  {
    if ss == [] then "" else ss[0] + " " + Spaced(ss[1..])
  }

  /**
   * `variation()`: "No Moves." for the empty list; otherwise, for each move
   * in order, its string and then a space.
   */
  method Variation(ml: seq<Move>) returns (v: string)
    requires forall m | m in ml :: Printable(m)
    ensures |ml| == 0 ==> v == "No Moves."
    ensures |ml| > 0 ==> Split(v, ' ') == Strings(ml) + [""]
    ensures |ml| > 0 ==> v == Spaced(Strings(ml))
  {
    if |ml| == 0 {
      return "No Moves.";
    }
    v := "";
    var i := 0;
    while i < |ml|
      invariant 0 <= i <= |ml|
      invariant v == Spaced(Strings(ml[..i]))
    {
      assert ml[i] in ml;
      SpacedAppend(Strings(ml[..i]), MoveString(ml[i]));
      assert Strings(ml[..i + 1]) == Strings(ml[..i]) + [MoveString(ml[i])];
      v := v + MoveString(ml[i]) + " ";
      i := i + 1;
    }
    assert ml[..|ml|] == ml;
    StringsNoSpace(ml);
    SplitSpaced(Strings(ml));
  }

  /** The strings of the moves, in order. */
  function Strings(ml: seq<Move>): (ss: seq<string>)
    requires forall m | m in ml :: Printable(m)
    ensures |ss| == |ml|
  {
    seq(|ml|, k requires 0 <= k < |ml| => assert ml[k] in ml; assert Printable(ml[k]); MoveString(ml[k]))
  }

  /** None of the move strings of a list contains a space. */
  lemma StringsNoSpace(ml: seq<Move>)
    requires forall m | m in ml :: Printable(m)
    ensures forall k | 0 <= k < |ml| :: ' ' !in Strings(ml)[k]
  {
    forall k | 0 <= k < |ml|
      ensures ' ' !in Strings(ml)[k]
    {
      assert ml[k] in ml;
      NoSpace(ml[k]);
    }
  }

  /** No move string contains a space. */
  lemma NoSpace(m: Move)
    requires Printable(m)
    ensures ' ' !in MoveString(m)
  {
    if !CastleK(m) && !CastleQ(m) {
      NotationNoSpace(MovingPiece(m), From(m), Capture(m), To(m), Promote(m), PromotedPiece(m));
    }
  }

  lemma NotationNoSpace(piece: Kind, from: int, capture: bool, to: int, promote: bool, promoted: int)
    requires OnBoard(from) && OnBoard(to)
    requires promote ==> 0 <= promoted < 6
    ensures ' ' !in MoveNotation(piece, from, capture, to, promote, promoted)
  {
    var name := PieceNamesShort[piece];
    var f := SquareToAlgebraic(from);
    var x := if capture then "x" else "";
    var t := SquareToAlgebraic(to);
    var p := if promote then "=" + PieceNamesShort[promoted] else "";
    assert ' ' !in name by { NameHasNoSpace(piece); }
    assert ' ' !in f by { SquareNameNoSpace(from); }
    assert ' ' !in t by { SquareNameNoSpace(to); }
    assert ' ' !in p by {
      if promote {
        NameHasNoSpace(promoted);
        assert p == ['='] + PieceNamesShort[promoted];
      }
    }
    assert MoveNotation(piece, from, capture, to, promote, promoted) == name + f + x + t + p;
  }

  lemma SquareNameNoSpace(q: int)
    requires OnBoard(q)
    ensures ' ' !in SquareToAlgebraic(q)
  {
    var r := SquareToAlgebraic(q);
    assert IsSquareName(r);
    assert r == [r[0], r[1]];
  }

  lemma NameHasNoSpace(piece: Kind)
    ensures ' ' !in PieceNamesShort[piece]
  {
  }

  /** Appending one string adds it and its space at the end. */
  lemma {:induction false} SpacedAppend(ss: seq<string>, s: string)
    ensures Spaced(ss + [s]) == Spaced(ss) + s + " "
    decreases |ss|
  {
    if ss == [] {
      assert [s][1..] == [];
    } else {
      assert (ss + [s])[1..] == ss[1..] + [s];
      SpacedAppend(ss[1..], s);
    }
  }

  /** Splitting the spaced strings at spaces gives them back, with the empty field after the last space. */
  lemma {:induction false} SplitSpaced(ss: seq<string>)
    requires forall k | 0 <= k < |ss| :: ' ' !in ss[k]
    ensures Split(Spaced(ss), ' ') == ss + [""]
    decreases |ss|
  {
    if ss != [] {
      SplitSpaced(ss[1..]);
      SplitAfter(ss[0], Spaced(ss[1..]), ' ');
      assert ss[0] + " " + Spaced(ss[1..]) == ss[0] + [' '] + Spaced(ss[1..]);
      assert ss + [""] == [ss[0]] + (ss[1..] + [""]);
    }
  }

  /** A field without the separator, then the separator: splitting yields that field first. */
  lemma {:induction false} SplitAfter(a: string, b: string, sep: char)
    requires sep !in a
    ensures Split(a + [sep] + b, sep) == [a] + Split(b, sep)
    decreases |a|
  {
    var s := a + [sep] + b;
    if a == [] {
      assert s[0] == sep && s[1..] == b;
    } else {
      assert s[0] == a[0] && s[1..] == a[1..] + [sep] + b;
      SplitAfter(a[1..], b, sep);
      assert [a[0]] + a[1..] == a;
    }
  }
}
