/**
 * The position record and its Forsyth–Edwards Notation (FEN) parser.
 *
 * The record declares a `white` and a `black` board, while the move
 * generator and the evaluator index a `colours` pair by colour; the model
 * keeps the two boards and reads them through `Colours(c)`.
 */
module Positions {
  import opened Bitboards
  import opened Notation
  import opened Pieces

  /** One board per piece kind, PAWN..KING. */
  type PieceBoards = s: seq<Bitboard> | |s| == 6 witness NoPieces

  const NoPieces: seq<Bitboard> := [{}, {}, {}, {}, {}, {}]

  datatype Position = Position(
    toMove: Colour,
    castleWK: bool, castleWQ: bool, castleBK: bool, castleBQ: bool,
    enpassant: int,
    fiftyMoveCounter: int, fullMoveCounter: int,
    white: Bitboard, black: Bitboard,
    pieces: PieceBoards)
  {
    /** `colours[c]`. */
    function Colours(c: Colour): Bitboard
    {
      if c == WHITE then white else black
    }

    /** The position with `colours[c]` replaced by b. */
    function WithColours(c: Colour, b: Bitboard): (r: Position)
      ensures r.Colours(c) == b && r.Colours(Opponent(c)) == Colours(Opponent(c))
      ensures r.toMove == toMove && r.pieces == pieces && r.enpassant == enpassant
    {
      if c == WHITE then this.(white := b) else this.(black := b)
    }
  }

  /** The zero value `position{}`. */
  const EmptyPosition: Position :=
    Position(WHITE, false, false, false, false, 0, 0, 0, {}, {}, NoPieces)

  /** The run-time panics the parser can hit. */
  datatype Panic =
    | IndexOutOfRange   // a missing FEN field, or an empty counter field
    | NegativeShift     // a piece placed beyond square 63

  datatype Result<T> = Success(value: T) | Failure(error: Panic)

  // ---------------------------------------------------------------------
  // strings.Split
  // ---------------------------------------------------------------------

  /** Fields joined back with the separator. */
  function Join(fields: seq<string>, sep: char): string
    requires |fields| >= 1
  {
    if |fields| == 1 then fields[0] else fields[0] + [sep] + Join(fields[1..], sep)
  }

  /** Number of occurrences of c in s. */
  function Count(s: string, c: char): nat
  {
    if s == [] then 0 else (if s[0] == c then 1 else 0) + Count(s[1..], c)
  }

  /**
   * `strings.Split(s, sep)`: the pieces between separators, empty pieces
   * included, so there is always one more field than separators.
   */
  function Split(s: string, sep: char): (fields: seq<string>)
    ensures |fields| == Count(s, sep) + 1
    ensures forall k | 0 <= k < |fields| :: sep !in fields[k]
    ensures Join(fields, sep) == s
  {
    if s == [] then [""]
    else
      var rest := Split(s[1..], sep);
      if s[0] == sep then
        assert s == [] + [sep] + s[1..];
        [""] + rest
      else
        var r := [[s[0]] + rest[0]] + rest[1..];
        assert r[1..] == rest[1..];
        if |rest| == 1 then r
        else
          assert Join(r, sep) == [s[0]] + rest[0] + [sep] + Join(rest[1..], sep);
          r
  }

  // ---------------------------------------------------------------------
  // Piece placement
  // ---------------------------------------------------------------------

  /** Every square some piece board holds. */
  function Occupied(pieces: PieceBoards): Bitboard
  {
    pieces[0] + pieces[1] + pieces[2] + pieces[3] + pieces[4] + pieces[5]
  }

  /**
   * One piece letter: set the square in the board of the piece's kind and
   * in the board of its colour.
   */
  function Put(pos: Position, p: Piece, square: int): (r: Position)
    requires 0 <= p.colour <= 1 && 0 <= p.piece < 6
    requires square <= 63
    ensures r.pieces[p.piece] == SetBit(pos.pieces[p.piece], square)
    ensures forall k | 0 <= k < 6 && k != p.piece :: r.pieces[k] == pos.pieces[k]
    ensures r.Colours(p.colour) == SetBit(pos.Colours(p.colour), square)
    ensures r.Colours(Opponent(p.colour)) == pos.Colours(Opponent(p.colour))
    ensures r == pos.(pieces := r.pieces, white := r.white, black := r.black)
  {
    var pieces := pos.pieces[p.piece := SetBit(pos.pieces[p.piece], square)];
    if p.colour == WHITE then pos.(pieces := pieces, white := SetBit(pos.white, square))
    else pos.(pieces := pieces, black := SetBit(pos.black, square))
  }

  /**
   * The placement loop over the characters of the first FEN field, from
   * `square`: a piece letter is put on the current square, which then
   * advances by one; '/' is skipped; any other character advances the square
   * by its rune value minus '0'. Placing a piece on a square above 63 is a
   * negative shift count, a run-time panic; a negative square sets nothing.
   */
  function Place(s: string, square: int, pos: Position): (r: Result<Position>)
    ensures r.Failure? ==> r.error == NegativeShift
    ensures r.Success? ==> r.value == pos.(pieces := r.value.pieces, white := r.value.white, black := r.value.black)
    decreases |s|
  {
    if s == [] then Success(pos)
    else
      var ch := s[0];
      if ch in DisplayLookup then
        LookupIsPiece(ch);
        if square > 63 then Failure(NegativeShift)
        else Place(s[1..], square + 1, Put(pos, DisplayLookup[ch], square))
      else if ch == '/' then Place(s[1..], square, pos)
      else Place(s[1..], square + (ch as int - '0' as int), pos)
  }

  /** The colour boards together cover exactly the piece boards. */
  predicate ColoursCoverPieces(pos: Position)
  {
    pos.white + pos.black == Occupied(pos.pieces)
  }

  /** Placement keeps the two colour boards covering exactly the piece boards. */
  lemma {:induction false} PlaceKeepsCover(s: string, square: int, pos: Position)
    requires ColoursCoverPieces(pos)
    ensures Place(s, square, pos).Success? ==> ColoursCoverPieces(Place(s, square, pos).value)
    decreases |s|
  {
    if s != [] {
      var ch := s[0];
      if ch in DisplayLookup {
        LookupIsPiece(ch);
        if square <= 63 {
          var p := DisplayLookup[ch];
          var next := Put(pos, p, square);
          PutKeepsCover(pos, p, square);
          PlaceKeepsCover(s[1..], square + 1, next);
        }
      } else if ch == '/' {
        PlaceKeepsCover(s[1..], square, pos);
      } else {
        PlaceKeepsCover(s[1..], square + (ch as int - '0' as int), pos);
      }
    }
  }

  lemma PutKeepsCover(pos: Position, p: Piece, square: int)
    requires 0 <= p.colour <= 1 && 0 <= p.piece < 6 && square <= 63
    requires ColoursCoverPieces(pos)
    ensures ColoursCoverPieces(Put(pos, p, square))
  {
    var next := Put(pos, p, square);
    if square >= 0 {
      assert next.pieces == pos.pieces[p.piece := pos.pieces[p.piece] + {square}];
      assert next.white + next.black == pos.white + pos.black + {square};
      assert Occupied(next.pieces) == Occupied(pos.pieces) + {square};
    } else {
      assert next.pieces == pos.pieces;
    }
  }

  /** No character that advances the square moves it backwards. */
  predicate NoBackwardSkips(s: string)
  {
    forall k | 0 <= k < |s| :: s[k] in DisplayLookup || s[k] == '/' || s[k] >= '0'
  }

  /** The two colours hold no common square, and neither do two piece kinds. */
  predicate Disjoint(pos: Position)
  {
    pos.white * pos.black == {}
    && forall k, l | 0 <= k < l < 6 :: pos.pieces[k] * pos.pieces[l] == {}
  }

  /** Every square set on any board lies below `square`. */
  predicate AllBelow(pos: Position, square: int)
  {
    forall q | q in pos.white + pos.black + Occupied(pos.pieces) :: q < square
  }

  lemma PutKeepsDisjoint(pos: Position, p: Piece, square: int)
    requires 0 <= p.colour <= 1 && 0 <= p.piece < 6 && square <= 63
    requires Disjoint(pos) && AllBelow(pos, square)
    ensures Disjoint(Put(pos, p, square)) && AllBelow(Put(pos, p, square), square + 1)
  {
    var all := pos.white + pos.black + Occupied(pos.pieces);
    assert square in all ==> square < square;
    assert forall k | 0 <= k < 6 :: square !in pos.pieces[k] by {
      forall k | 0 <= k < 6 ensures pos.pieces[k] <= Occupied(pos.pieces) {
      }
    }
    PutStaysDisjoint(pos, p, square);
    PutStaysBelow(pos, p, square);
  }

  /** Setting a square that no board holds keeps the boards disjoint. */
  lemma PutStaysDisjoint(pos: Position, p: Piece, square: int)
    requires 0 <= p.colour <= 1 && 0 <= p.piece < 6 && square <= 63
    requires Disjoint(pos) && square !in pos.white + pos.black
    requires forall k | 0 <= k < 6 :: square !in pos.pieces[k]
    ensures Disjoint(Put(pos, p, square))
  {
    var next := Put(pos, p, square);
    assert next.white * next.black == {};
    forall k, l | 0 <= k < l < 6
      ensures next.pieces[k] * next.pieces[l] == {}
    {
      assert next.pieces[k] <= pos.pieces[k] + {square};
      assert next.pieces[l] <= pos.pieces[l] + {square};
      assert !(k == p.piece && l == p.piece);
    }
  }

  /** After setting `square`, everything lies below the next square. */
  lemma PutStaysBelow(pos: Position, p: Piece, square: int)
    requires 0 <= p.colour <= 1 && 0 <= p.piece < 6 && square <= 63
    requires AllBelow(pos, square)
    ensures AllBelow(Put(pos, p, square), square + 1)
  {
    var next := Put(pos, p, square);
    forall k | 0 <= k < 6
      ensures next.pieces[k] <= pos.pieces[k] + {square}
    {
    }
    assert Occupied(next.pieces) <= Occupied(pos.pieces) + {square};
    assert next.white + next.black <= pos.white + pos.black + {square};
    var all := pos.white + pos.black + Occupied(pos.pieces);
    forall q | q in next.white + next.black + Occupied(next.pieces)
      ensures q < square + 1
    {
      if q != square {
        assert q in all;
      }
    }
  }

  /**
   * When no skip character moves the square backwards, each piece goes on
   * a square above every square used so far, so no square is set twice:
   * the colours stay disjoint and so do the piece kinds.
   */
  lemma {:induction false} PlaceKeepsDisjoint(s: string, square: int, pos: Position)
    requires NoBackwardSkips(s)
    requires Disjoint(pos) && AllBelow(pos, square)
    ensures Place(s, square, pos).Success? ==> Disjoint(Place(s, square, pos).value)
    decreases |s|
  {
    if s != [] {
      var ch := s[0];
      assert NoBackwardSkips(s[1..]) by {
        forall k | 0 <= k < |s[1..]| ensures s[1..][k] == s[k + 1] {}
      }
      if ch in DisplayLookup {
        LookupIsPiece(ch);
        if square <= 63 {
          var p := DisplayLookup[ch];
          var next := Put(pos, p, square);
          PutKeepsDisjoint(pos, p, square);
          PlaceKeepsDisjoint(s[1..], square + 1, next);
        }
      } else if ch == '/' {
        PlaceKeepsDisjoint(s[1..], square, pos);
      } else {
        assert s[0] >= '0';
        PlaceKeepsDisjoint(s[1..], square + (ch as int - '0' as int), pos);
      }
    }
  }

  /**
   * A skip character below '0' moves the square backwards: in "1P.pp" the
   * '.' steps back two squares and a black pawn lands on the white pawn's
   * square.
   */
  lemma BackwardSkipOverlaps()
    ensures Place("1P.pp", 0, EmptyPosition).Success?
    ensures 1 in Place("1P.pp", 0, EmptyPosition).value.white * Place("1P.pp", 0, EmptyPosition).value.black
  {
    var p1 := Put(EmptyPosition, Piece(WHITE, PAWN), 1);
    var p2 := Put(p1, Piece(BLACK, PAWN), 0);
    var p3 := Put(p2, Piece(BLACK, PAWN), 1);
    assert '1' !in DisplayLookup && '.' !in DisplayLookup;
    assert DisplayLookup['P'] == Piece(WHITE, PAWN) && DisplayLookup['p'] == Piece(BLACK, PAWN);
    assert Place("1P.pp", 0, EmptyPosition) == Place("P.pp", 1, EmptyPosition) by {
      PlaceSkip("1P.pp", 0, EmptyPosition);
      assert "1P.pp"[1..] == "P.pp";
    }
    assert Place("P.pp", 1, EmptyPosition) == Place(".pp", 2, p1) by {
      PlacePiece("P.pp", 1, EmptyPosition);
      assert "P.pp"[1..] == ".pp";
    }
    assert Place(".pp", 2, p1) == Place("pp", 0, p1) by {
      PlaceSkip(".pp", 2, p1);
      assert ".pp"[1..] == "pp";
    }
    assert Place("pp", 0, p1) == Place("p", 1, p2) by {
      PlacePiece("pp", 0, p1);
      assert "pp"[1..] == "p";
    }
    assert Place("p", 1, p2) == Place("", 2, p3) by {
      PlacePiece("p", 1, p2);
      assert "p"[1..] == "";
    }
  }

  /** A piece letter on the board puts the piece and moves on one square. */
  lemma PlacePiece(s: string, square: int, pos: Position)
    requires s != [] && s[0] in DisplayLookup && square <= 63
    requires 0 <= DisplayLookup[s[0]].colour <= 1 && 0 <= DisplayLookup[s[0]].piece < 6
    ensures Place(s, square, pos) == Place(s[1..], square + 1, Put(pos, DisplayLookup[s[0]], square))
  {
  }

  /** Any other character but '/' moves the square by its value less '0'. */
  lemma PlaceSkip(s: string, square: int, pos: Position)
    requires s != [] && s[0] !in DisplayLookup && s[0] != '/'
    ensures Place(s, square, pos) == Place(s[1..], square + (s[0] as int - '0' as int), pos)
  {
  }

  // ---------------------------------------------------------------------
  // NewPosition
  // ---------------------------------------------------------------------

  /** The standard initial position, used for an empty FEN string. */
  const StartFen: string := "rnbqkbnr/pppppppp/8/8/8/8/PPPPPPPP/RNBQKBNR w KQkq - 0 1"

  /**
   * The castling field: each 'K', 'Q', 'k' or 'q' grants its right and any
   * other character is ignored.
   */
  function ScanCastling(s: string, pos: Position): (r: Position)
    ensures r.castleWK == (pos.castleWK || 'K' in s)
    ensures r.castleWQ == (pos.castleWQ || 'Q' in s)
    ensures r.castleBK == (pos.castleBK || 'k' in s)
    ensures r.castleBQ == (pos.castleBQ || 'q' in s)
    ensures r == pos.(castleWK := r.castleWK, castleWQ := r.castleWQ,
                      castleBK := r.castleBK, castleBQ := r.castleBQ)
  {
    if s == [] then pos
    else
      var next := match s[0]
        case 'K' => pos.(castleWK := true)
        case 'Q' => pos.(castleWQ := true)
        case 'k' => pos.(castleBK := true)
        case 'q' => pos.(castleBQ := true)
        case _ => pos;
      assert forall c :: c in s <==> c == s[0] || c in s[1..];
      ScanCastling(s[1..], next)
  }

  /**
   * A move counter: `int(field[0] - '0')`, the first byte of the field less
   * '0' in byte arithmetic, so a byte below '0' wraps round to 256 less the
   * difference ("-1" reads as 253). Only the first character counts; an empty
   * field is an index out of range.
   */
  function Counter(field: string): (r: Result<int>)
    ensures r.Failure? <==> field == []
    ensures r.Success? ==> 0 <= r.value < 256
    ensures field == [] ==> r == Failure(IndexOutOfRange)
    ensures field != [] && '0' <= field[0] <= '9' ==> r == Success(field[0] as int - '0' as int)
    ensures field != [] && field[0] as int < '0' as int ==> r == Success(0x100 + field[0] as int - '0' as int)
    ensures field != [] && field[0] as int < 0x80 ==> r == Success((field[0] as int - '0' as int) % 0x100)
  {
    if field == [] then Failure(IndexOutOfRange)
    else Success(ByteMinusZero(LeadByte(field[0])))
  }

  /** The space-separated fields `NewPosition` reads. */
  function FenFields(fen: string): (fields: seq<string>)
    ensures |fields| >= 1
  {
    Split(if fen == [] then StartFen else fen, ' ')
  }

  /**
   * `NewPosition(fen)`. Any run-time panic of the Go code is a failure:
   * placing a piece beyond square 63, fewer than four fields, or an empty
   * counter field.
   */
  function NewPosition(fen: string): (r: Result<Position>)
    ensures var fields := FenFields(fen);
            r.Success? <==>
              Place(fields[0], 0, EmptyPosition).Success? && |fields| >= 4
              && (|fields| >= 5 ==> fields[4] != []) && (|fields| >= 6 ==> fields[5] != [])
    ensures r.Success? ==>
              var fields := FenFields(fen);
              var placed := Place(fields[0], 0, EmptyPosition).value;
              var pos := r.value;
              pos.white == placed.white && pos.black == placed.black && pos.pieces == placed.pieces
              && pos.toMove == (if fields[1] == "b" then BLACK else WHITE)
              && pos.castleWK == ('K' in fields[2]) && pos.castleWQ == ('Q' in fields[2])
              && pos.castleBK == ('k' in fields[2]) && pos.castleBQ == ('q' in fields[2])
              && pos.enpassant == (if fields[3] == "-" then -1 else AlgebraicToSquare(fields[3]))
              && pos.fiftyMoveCounter == (if |fields| >= 5 then Counter(fields[4]).value else 0)
              && pos.fullMoveCounter == (if |fields| >= 6 then Counter(fields[5]).value else 0)
  {
    var fields := FenFields(fen);
    match Place(fields[0], 0, EmptyPosition)
    case Failure(e) => Failure(e)
    case Success(pos) =>
      if |fields| < 4 then Failure(IndexOutOfRange)
      else
        var pos := if fields[1] == "w" then pos.(toMove := WHITE)
                   else if fields[1] == "b" then pos.(toMove := BLACK)
                   else pos;
        var pos := ScanCastling(fields[2], pos);
        var pos := pos.(enpassant := if fields[3] != "-" then AlgebraicToSquare(fields[3]) else -1);
        var fifty := if |fields| >= 5 then Counter(fields[4]) else Success(0);
        var full := if |fields| >= 6 then Counter(fields[5]) else Success(0);
        if fifty.Failure? then Failure(fifty.error)
        else if full.Failure? then Failure(full.error)
        else Success(pos.(fiftyMoveCounter := fifty.value, fullMoveCounter := full.value))
  }

  /**
   * Every parsed position has colour boards that together cover exactly the
   * piece boards; when no skip character of the placement field moves
   * backwards, the colours and the piece kinds are also disjoint.
   */
  lemma ParsedOccupancy(fen: string)
    requires NewPosition(fen).Success?
    ensures ColoursCoverPieces(NewPosition(fen).value)
    ensures NoBackwardSkips(FenFields(fen)[0]) ==> Disjoint(NewPosition(fen).value)
  {
    var fields := FenFields(fen);
    assert ColoursCoverPieces(EmptyPosition);
    PlaceKeepsCover(fields[0], 0, EmptyPosition);
    if NoBackwardSkips(fields[0]) {
      assert Disjoint(EmptyPosition) && AllBelow(EmptyPosition, 0);
      PlaceKeepsDisjoint(fields[0], 0, EmptyPosition);
    }
  }
}
