/**
  What the server uses of the chess.js library, as an oracle: for a position
  of some type `P`, whose turn it is, the position after a move (or a
  refusal), and the end-of-game classification. Legality and checkmate
  detection themselves are not modelled.
 */
module ChessRules {
  import opened Wrappers

  /** The side to move, chess.js's `'w'` and `'b'`. */
  datatype Color = White | Black

  function Opposite(c: Color): (o: Color)
    ensures o != c
  {
    if c == White then Black else White
  }

  /** The move a client sends: from-square, to-square and promotion piece. */
  datatype MoveRequest = MoveRequest(from: string, to: string, promotion: string)

  /**
    The oracle. `move` returns `None` both where chess.js returns `null` and
    where it throws: the server answers both the same way.
   */
  datatype Rules<!P> = Rules(
    turn: P -> Color,
    move: (P, MoveRequest) -> Option<P>,
    isGameOver: P -> bool,
    isCheckmate: P -> bool,
    isDraw: P -> bool)
}
