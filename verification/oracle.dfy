/**
 * Board queries the engine calls whose bodies are not part of this model:
 * `isSquareAttacked`, `getPieceOnSquare` and `getKingSquare`. Each is a
 * parameter of the operations that use it and is always asked about the
 * position as it stands at the call, so a query on a temporarily edited
 * position sees the edit.
 */
module Oracles {
  import opened Pieces
  import opened Positions

  datatype Oracle = Oracle(
    /** `pos.isSquareAttacked(square, by)`: is square attacked by colour `by`? */
    isSquareAttacked: (Position, int, Colour) -> bool,
    /** `pos.getPieceOnSquare(square)`: the kind of the piece on square. */
    getPieceOnSquare: (Position, int) -> int,
    /** `pos.getKingSquare(colour)`: where colour's king stands. */
    getKingSquare: (Position, Colour) -> int)

  /** The side to move is in check: its king's square is attacked by the opponent. */
  predicate InCheck(o: Oracle, pos: Position)
  {
    o.isSquareAttacked(pos, o.getKingSquare(pos, pos.toMove), Opponent(pos.toMove))
  }
}
