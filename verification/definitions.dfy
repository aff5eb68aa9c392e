/**
 * Colours, piece kinds, directions and their display names, as fixed by the
 * engine's definitions and its `init` function.
 */
module Pieces {

  const WHITE: int := 0
  const BLACK: int := 1

  /** A side: WHITE or BLACK, used as an index into per-colour arrays. */
  type Colour = c: int | 0 <= c <= 1

  const PAWN: int := 0
  const KNIGHT: int := 1
  const BISHOP: int := 2
  const ROOK: int := 3
  const QUEEN: int := 4
  const KING: int := 5

  /** A piece kind PAWN..KING, an index into the six piece bitboards. */
  type Kind = p: int | 0 <= p < 6

  /**
   * The other side. `opponent` is called by the move generator but its body
   * is not among the modelled files; it is taken to swap the two colours.
   */
  function Opponent(c: Colour): (r: Colour)
    ensures r != c
  {
    1 - c
  }

  /** Piece letters for move notation (a pawn has none). */
  const PieceNamesShort: seq<string> := ["", "N", "B", "R", "Q", "K"]

  /** Piece letters for display and FEN, indexed by colour first. */
  const PieceNamesDisplay: seq<seq<string>> :=
    [["P", "N", "B", "R", "Q", "K"], ["p", "n", "b", "r", "q", "k"]]

  /** A coloured piece, the value type of `displayLookup`. */
  datatype Piece = Piece(colour: int, piece: int)

  /** `displayLookup`: FEN letter to coloured piece. */
  const DisplayLookup: map<char, Piece> := map[
    'P' := Piece(WHITE, PAWN), 'N' := Piece(WHITE, KNIGHT), 'B' := Piece(WHITE, BISHOP),
    'R' := Piece(WHITE, ROOK), 'Q' := Piece(WHITE, QUEEN), 'K' := Piece(WHITE, KING),
    'p' := Piece(BLACK, PAWN), 'n' := Piece(BLACK, KNIGHT), 'b' := Piece(BLACK, BISHOP),
    'r' := Piece(BLACK, ROOK), 'q' := Piece(BLACK, QUEEN), 'k' := Piece(BLACK, KING)]

  /** The display letter of a coloured piece. */
  function DisplayLetter(c: Colour, p: Kind): (ch: char)
    ensures PieceNamesDisplay[c][p] == [ch]
  {
    PieceNamesDisplay[c][p][0]
  }

  /**
   * The lookup inverts the display names: each of the twelve letters maps to
   * its own colour and kind, and every key of the lookup is one of them.
   */
  lemma DisplayLookupInvertsNames()
    ensures forall c: Colour, p: Kind :: DisplayLetter(c, p) in DisplayLookup
                                        && DisplayLookup[DisplayLetter(c, p)] == Piece(c, p)
    ensures forall ch | ch in DisplayLookup ::
              0 <= DisplayLookup[ch].colour <= 1 && 0 <= DisplayLookup[ch].piece < 6
              && DisplayLetter(DisplayLookup[ch].colour, DisplayLookup[ch].piece) == ch
  {
  }

  /** Every value of the lookup is a colour and a piece kind. */
  lemma LookupIsPiece(ch: char)
    requires ch in DisplayLookup
    ensures 0 <= DisplayLookup[ch].colour <= 1 && 0 <= DisplayLookup[ch].piece < 6
  {
  }

  // Directions; movegen relies on this order.
  const LEFT: int := 0
  const UPLEFT: int := 1
  const UP: int := 2
  const UPRIGHT: int := 3
  const RIGHT: int := 4
  const DOWNRIGHT: int := 5
  const DOWN: int := 6
  const DOWNLEFT: int := 7

  type Direction = d: int | 0 <= d < 8

  /** The square offsets of the eight directions, in direction order. */
  const Offsets: seq<int> := [-1, -9, -8, -7, 1, 9, 8, 7]

  /** Rank step of a direction (ranks count up towards black's side). */
  function DRank(dir: Direction): int
  {
    if dir == UPLEFT || dir == UP || dir == UPRIGHT then 1
    else if dir == DOWNRIGHT || dir == DOWN || dir == DOWNLEFT then -1
    else 0
  }

  /** File step of a direction (files count up towards the h-file). */
  function DFile(dir: Direction): int
  {
    if dir == UPLEFT || dir == LEFT || dir == DOWNLEFT then -1
    else if dir == UPRIGHT || dir == RIGHT || dir == DOWNRIGHT then 1
    else 0
  }

  /** Each offset is one rank step (8 squares) and one file step (1 square). */
  lemma OffsetsMatchSteps(dir: Direction)
    ensures Offsets[dir] == -8 * DRank(dir) + DFile(dir)
    ensures DRank(dir) != 0 || DFile(dir) != 0
  {
  }

  /** LEFT..UPRIGHT step to lower squares, RIGHT..DOWNLEFT to higher ones. */
  lemma OffsetSigns(dir: Direction)
    ensures dir <= UPRIGHT ==> Offsets[dir] < 0
    ensures dir >= RIGHT ==> Offsets[dir] > 0
  {
  }
}
