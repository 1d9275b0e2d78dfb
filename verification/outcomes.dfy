/** Failure-carrying datatypes shared by every layer of the chess kernel.

    `Option` stands for Rust's `Option`, `Result` for `Result<T, ChessError>`.
    The error enum itself is defined elsewhere in the crate and not
    modelled; its variants are the ones the modelled code constructs.
 */
module Outcomes {

  datatype Option<+T> = None | Some(value: T)

  /** The error kinds raised by the modelled code. */
  datatype ChessError =
    | OutOfBounds         // position arithmetic left the 8x8 board
    | NoPiece             // origin empty or holding the opponent's piece
    | NoMoves             // no move map could be produced for the origin
    | InvalidMove         // destination absent from the move map
    | IncorrectFenString  // unrecognised character or turn field in a FEN import

  datatype Result<+T> = Ok(value: T) | Err(error: ChessError)
}
