/** Canonical piece constants and direction tables (src/piece/shorthands.rs). */
module Shorthands {
  import opened Outcomes
  import opened Positions
  import opened Pieces

  const WHITE_KING: Color<Piece> := White(King(None, (false, false)))
  const NEW_WHITE_KING: Color<Piece> := White(King(None, (true, true)))
  const WHITE_QUEEN: Color<Piece> := White(Queen)
  const WHITE_BISHOP: Color<Piece> := White(Bishop)
  const WHITE_KNIGHT: Color<Piece> := White(Knight)
  const WHITE_ROOK: Color<Piece> := White(Rook)
  const WHITE_PAWN: Color<Piece> := White(Pawn(Default))
  const NEW_WHITE_PAWN: Color<Piece> := White(Pawn(FirstMove))

  const BLACK_KING: Color<Piece> := Black(King(None, (false, false)))
  const NEW_BLACK_KING: Color<Piece> := Black(King(None, (true, true)))
  const BLACK_QUEEN: Color<Piece> := Black(Queen)
  const BLACK_BISHOP: Color<Piece> := Black(Bishop)
  const BLACK_KNIGHT: Color<Piece> := Black(Knight)
  const BLACK_ROOK: Color<Piece> := Black(Rook)
  const BLACK_PAWN: Color<Piece> := Black(Pawn(Default))
  const NEW_BLACK_PAWN: Color<Piece> := Black(Pawn(FirstMove))

  const KING_MOVES: seq<Vector> := [(0, 1), (1, 1), (1, 0), (1, -1), (0, -1), (-1, -1), (-1, 0), (-1, 1)]
  const QUEEN_MOVES: seq<Vector> := [(0, 1), (1, 1), (1, 0), (1, -1), (0, -1), (-1, -1), (-1, 0), (-1, 1)]
  const ROOK_MOVES: seq<Vector> := [(0, 1), (1, 0), (0, -1), (-1, 0)]
  const BISHOP_MOVES: seq<Vector> := [(1, 1), (1, -1), (-1, -1), (-1, 1)]
  const KNIGTH_MOVES: seq<Vector> := [(-1, 2), (1, 2), (2, 1), (2, -1), (1, -2), (-1, -2), (-2, -1), (-2, 1)]
  const WHITE_PAWN_MOVES: seq<Vector> := [(0, 1)]
  const BLACK_PAWN_MOVES: seq<Vector> := [(0, -1)]

  /** An L-shaped knight offset: one coordinate moves by one, the other by two. */
  predicate IsKnightOffset(v: Vector) {
    (UnsignedAbs(v.0) == 1 && UnsignedAbs(v.1) == 2) || (UnsignedAbs(v.0) == 2 && UnsignedAbs(v.1) == 1)
  }

  /** The queen table repeats the king table element for element; the rook
      and bishop tables are disjoint and together make up the queen table. */
  lemma SlidingTablesPartitionQueen()
    ensures QUEEN_MOVES == KING_MOVES
    ensures (set i | 0 <= i < |ROOK_MOVES| :: ROOK_MOVES[i]) !! (set i | 0 <= i < |BISHOP_MOVES| :: BISHOP_MOVES[i])
    ensures (set i | 0 <= i < |ROOK_MOVES| :: ROOK_MOVES[i]) + (set i | 0 <= i < |BISHOP_MOVES| :: BISHOP_MOVES[i])
         == (set i | 0 <= i < |QUEEN_MOVES| :: QUEEN_MOVES[i])
  {
    var rook := set i | 0 <= i < |ROOK_MOVES| :: ROOK_MOVES[i];
    var bishop := set i | 0 <= i < |BISHOP_MOVES| :: BISHOP_MOVES[i];
    var queen := set i | 0 <= i < |QUEEN_MOVES| :: QUEEN_MOVES[i];
    assert rook == {(0, 1), (1, 0), (0, -1), (-1, 0)} by {
      assert ROOK_MOVES[0] in rook && ROOK_MOVES[1] in rook && ROOK_MOVES[2] in rook && ROOK_MOVES[3] in rook;
    }
    assert bishop == {(1, 1), (1, -1), (-1, -1), (-1, 1)} by {
      assert BISHOP_MOVES[0] in bishop && BISHOP_MOVES[1] in bishop && BISHOP_MOVES[2] in bishop && BISHOP_MOVES[3] in bishop;
    }
    assert queen == {(0, 1), (1, 1), (1, 0), (1, -1), (0, -1), (-1, -1), (-1, 0), (-1, 1)} by {
      assert QUEEN_MOVES[0] in queen && QUEEN_MOVES[1] in queen && QUEEN_MOVES[2] in queen && QUEEN_MOVES[3] in queen;
      assert QUEEN_MOVES[4] in queen && QUEEN_MOVES[5] in queen && QUEEN_MOVES[6] in queen && QUEEN_MOVES[7] in queen;
    }
  }

  /** The knight table holds eight distinct L-shaped offsets. */
  lemma KnightTableIsLShaped()
    ensures |KNIGTH_MOVES| == 8
    ensures forall i :: 0 <= i < |KNIGTH_MOVES| ==> IsKnightOffset(KNIGTH_MOVES[i])
    ensures forall i, j :: 0 <= i < j < |KNIGTH_MOVES| ==> KNIGTH_MOVES[i] != KNIGTH_MOVES[j]
  {
  }

  /** The white pawn direction is the negation of the black one. */
  lemma PawnTablesOpposite()
    ensures |WHITE_PAWN_MOVES| == |BLACK_PAWN_MOVES| == 1
    ensures WHITE_PAWN_MOVES[0] == (-BLACK_PAWN_MOVES[0].0, -BLACK_PAWN_MOVES[0].1)
  {
  }

  /** Each table agrees with `get_movement_base_vector` for the matching piece. */
  lemma TablesMatchBaseVectors(s: PawnState)
    ensures BaseVectors(NEW_WHITE_KING) == KING_MOVES && BaseVectors(WHITE_KING) == KING_MOVES
    ensures BaseVectors(WHITE_QUEEN) == QUEEN_MOVES
    ensures BaseVectors(WHITE_ROOK) == ROOK_MOVES
    ensures BaseVectors(WHITE_BISHOP) == BISHOP_MOVES
    ensures BaseVectors(WHITE_KNIGHT) == KNIGTH_MOVES
    ensures BaseVectors(White(Pawn(s))) == WHITE_PAWN_MOVES
    ensures BaseVectors(Black(Pawn(s))) == BLACK_PAWN_MOVES
  {
  }

  /** Fresh kings hold both castling rights, plain kings none; no king starts
      in check. Fresh pawns are on their first move, plain pawns Default. */
  lemma ConstantStates()
    ensures NEW_WHITE_KING.inner == NewKing && NEW_BLACK_KING.inner == NewKing
    ensures NewKing.castling == (true, true) && NewKing.checkState == None
    ensures WHITE_KING.inner.castling == (false, false) && BLACK_KING.inner.castling == (false, false)
    ensures WHITE_KING.inner.checkState == None && BLACK_KING.inner.checkState == None
    ensures NEW_WHITE_PAWN.inner == NewPawn && NEW_BLACK_PAWN.inner == NewPawn && NewPawn.state == FirstMove
    ensures WHITE_PAWN.inner.state == Default && BLACK_PAWN.inner.state == Default
  {
  }
}
