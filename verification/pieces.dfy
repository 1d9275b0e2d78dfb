/** Piece model and movement tables (src/piece.rs and
    src/piece/trait_implementations.rs).

    The colour wrapper follows the newer `Color<T>` revision; a king carries
    its castling rights as a (king side, queen side) pair of booleans, as in
    src/piece/shorthands.rs, instead of the `CastlingState` enum that
    src/piece.rs still shows. `get_movement_base_vector` and
    `get_number_of_moves` follow src/piece.rs with the `None` colour removed:
    an empty square is an `Option` at the board level.
 */
module Pieces {
  import opened Outcomes
  import opened Positions

  datatype PawnState = FirstMove | PosibleEnPassant | Default

  datatype CheckState = Check | CheckMate

  datatype Piece =
    | King(checkState: Option<CheckState>, castling: (bool, bool))
    | Queen
    | Rook
    | Bishop
    | Knight
    | Pawn(state: PawnState)

  /** Ownership wrapper; the wrapped value is the piece itself. */
  datatype Color<T> = White(inner: T) | Black(inner: T)

  datatype StepCount = OneStep | TwoSteps | Infinity

  /** Rust's half-open `Range<i8>`: `start..end`. */
  datatype StepRange = StepRange(start: int, end: int)
  {
    predicate Contains(k: int) {
      start <= k < end
    }
  }

  /** A vector all of whose scaled copies by 0..7 stay inside `i8`. */
  predicate SmallVector(v: Vector) {
    -2 <= v.0 <= 2 && -2 <= v.1 <= 2
  }

  /** `Piece::new_king`: not in check, both castling rights. */
  const NewKing: Piece := King(None, (true, true))
  /** `Piece::new_white_pawn` / `Piece::new_black_pawn`. */
  const NewPawn: Piece := Pawn(FirstMove)

  /** `ColouredPiece::get_movement_base_vector`. */
  function BaseVectors(c: Color<Piece>): (r: seq<Vector>)
    ensures 1 <= |r| <= 8
    ensures forall i :: 0 <= i < |r| ==> SmallVector(r[i]) && r[i] != (0, 0)
  {
    match c.inner
    case King(_, _) => [(0, 1), (1, 1), (1, 0), (1, -1), (0, -1), (-1, -1), (-1, 0), (-1, 1)]
    case Queen => [(0, 1), (1, 1), (1, 0), (1, -1), (0, -1), (-1, -1), (-1, 0), (-1, 1)]
    case Rook => [(0, 1), (1, 0), (0, -1), (-1, 0)]
    case Bishop => [(1, 1), (1, -1), (-1, -1), (-1, 1)]
    case Knight => [(-1, 2), (1, 2), (2, 1), (2, -1), (1, -2), (-1, -2), (-2, -1), (-2, 1)]
    case Pawn(_) => if c.White? then [(0, 1)] else [(0, -1)]
  }

  /** `ColouredPiece::get_number_of_moves`. */
  function StepCountOf(c: Color<Piece>): (s: StepCount)
    ensures s == TwoSteps <==> c.inner == Pawn(FirstMove)
    ensures s == Infinity <==> c.inner in {Queen, Rook, Bishop}
    ensures s == OneStep <==> c.inner.King? || c.inner == Knight || (c.inner.Pawn? && c.inner.state != FirstMove)
  {
    match c.inner
    case King(_, _) => OneStep
    case Queen => Infinity
    case Rook => Infinity
    case Bishop => Infinity
    case Knight => OneStep
    case Pawn(FirstMove) => TwoSteps
    case Pawn(_) => OneStep
  }

  /** `From<StepCount> for Range<i8>`. */
  function ToRange(s: StepCount): (r: StepRange)
    ensures r.start == 1 && r.start < r.end <= 8
  {
    match s
    case OneStep => StepRange(1, 2)
    case TwoSteps => StepRange(1, 3)
    case Infinity => StepRange(1, 8)
  }

  /** The multiplier sets: OneStep is {1}, TwoSteps is {1, 2}, Infinity is {1..7};
      they are nested, and Infinity reaches across the whole board. */
  lemma RangeContents(k: int)
    ensures ToRange(OneStep).Contains(k) <==> k == 1
    ensures ToRange(TwoSteps).Contains(k) <==> k == 1 || k == 2
    ensures ToRange(Infinity).Contains(k) <==> 1 <= k <= 7
    ensures ToRange(OneStep).Contains(k) ==> ToRange(TwoSteps).Contains(k)
    ensures ToRange(TwoSteps).Contains(k) ==> ToRange(Infinity).Contains(k)
    ensures !ToRange(OneStep).Contains(0) && !ToRange(TwoSteps).Contains(0) && !ToRange(Infinity).Contains(0)
  {
  }

  /** `Color::<T>::default()`, given `T::default()`. */
  function DefaultColor<T>(d: T): (c: Color<T>)
    ensures c.White? && c.inner == d
  {
    White(d)
  }

  /** King and queen share the same eight unit directions. */
  lemma KingAndQueenShareDirections(k: Option<CheckState>, cs: (bool, bool), white: bool)
    ensures var c := if white then White(King(k, cs)) else Black(King(k, cs));
            var q := if white then White(Queen) else Black(Queen);
            BaseVectors(c) == BaseVectors(q)
  {
  }

  /** A pawn's direction depends only on its colour, never on its state. */
  lemma PawnDirectionByColour(s: PawnState)
    ensures BaseVectors(White(Pawn(s))) == [(0, 1)]
    ensures BaseVectors(Black(Pawn(s))) == [(0, -1)]
  {
  }
}
