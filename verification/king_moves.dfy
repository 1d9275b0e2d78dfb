/** `get_king_moves`, `get_king_side_castle` and `get_queen_side_castle`
    (src/piece/king_moves.rs).

    `get_standard_valid_move` is defined elsewhere in the crate and not
    modelled: the move map it computes is passed in as the function
    `standard`. Castling only ever adds a `Move` entry on a fixed square, and
    the squares it inspects are fixed lists that leave out the home squares
    E1 and E8. Castling rights are never cleared, though, so a king that has
    left home still castles; a Black king on D8 has its own square tested by
    `is_in_check` and passes the emptiness test there.
 */
module KingMoves {
  import opened Outcomes
  import opened Positions
  import opened Pieces
  import opened Boards
  import opened Rays
  import opened Check

  /** `piece.get_standard_valid_move(board, position, position, player)`. */
  type StandardMoves = (Board<Color<Piece>>, BoardPosition, Color<Piece>, Turn) -> Board<MoveType>

  /** One castling test: the squares that must be empty, the squares that must
      not be attacked, and the square that becomes a `Move`. Early returns in
      the source test them in list order; the outcome is their conjunction. */
  datatype CastleRule = CastleRule(empty: seq<BoardPosition>, safe: seq<BoardPosition>, destination: BoardPosition)

  /** `get_king_side_castle`: F and G empty and unattacked; the king goes to G. */
  function KingSideRule(piece: Color<Piece>): CastleRule
  {
    match piece
    case White(_) =>
      CastleRule([BoardPosition(F, One), BoardPosition(G, One)], [BoardPosition(F, One), BoardPosition(G, One)], BoardPosition(G, One))
    case Black(_) =>
      CastleRule([BoardPosition(F, Eight), BoardPosition(G, Eight)], [BoardPosition(F, Eight), BoardPosition(G, Eight)], BoardPosition(G, Eight))
  }

  /** `get_queen_side_castle`, as written: White tests B1, C1 and D1 for both
      emptiness and attacks; Black tests B8, C8 and B8 again for emptiness but
      B8, C8 and D8 for attacks. Both sides move the king to the B file. */
  function QueenSideRule(piece: Color<Piece>): CastleRule
  {
    match piece
    case White(_) =>
      CastleRule([BoardPosition(B, One), BoardPosition(C, One), BoardPosition(D, One)],
                 [BoardPosition(B, One), BoardPosition(C, One), BoardPosition(D, One)],
                 BoardPosition(B, One))
    case Black(_) =>
      CastleRule([BoardPosition(B, Eight), BoardPosition(C, Eight), BoardPosition(B, Eight)],
                 [BoardPosition(B, Eight), BoardPosition(C, Eight), BoardPosition(D, Eight)],
                 BoardPosition(B, Eight))
  }

  predicate AllEmpty(board: Board<Color<Piece>>, squares: seq<BoardPosition>) {
    forall i :: 0 <= i < |squares| ==> IsEmpty(board, squares[i])
  }

  predicate NoneAttacked(board: Board<Color<Piece>>, squares: seq<BoardPosition>, player: Turn) {
    forall i :: 0 <= i < |squares| ==> !IsInCheck(board, squares[i], player)
  }

  /** The rule's squares are empty and none is attacked by the other side. */
  predicate Allowed(board: Board<Color<Piece>>, rule: CastleRule, player: Turn) {
    AllEmpty(board, rule.empty) && NoneAttacked(board, rule.safe, player)
  }

  /** The emptiness list, written out for two and three squares. */
  lemma AllEmptyListed(board: Board<Color<Piece>>, squares: seq<BoardPosition>)
    requires 2 <= |squares| <= 3
    ensures AllEmpty(board, squares)
        <==> IsEmpty(board, squares[0]) && IsEmpty(board, squares[1]) && (|squares| == 3 ==> IsEmpty(board, squares[2]))
  {
  }

  /** The attack list, written out for two and three squares. */
  lemma NoneAttackedListed(board: Board<Color<Piece>>, squares: seq<BoardPosition>, player: Turn)
    requires 2 <= |squares| <= 3
    ensures NoneAttacked(board, squares, player)
        <==> && !IsInCheck(board, squares[0], player) && !IsInCheck(board, squares[1], player)
             && (|squares| == 3 ==> !IsInCheck(board, squares[2], player))
  {
    if NoneAttacked(board, squares, player) {
      assert !IsInCheck(board, squares[0], player);
      assert !IsInCheck(board, squares[1], player);
    } else {
      var i :| 0 <= i < |squares| && IsInCheck(board, squares[i], player);
      assert i == 0 || i == 1 || i == 2;
    }
  }

  lemma Listed(board: Board<Color<Piece>>, rule: CastleRule, player: Turn)
    requires 2 <= |rule.empty| <= 3 && 2 <= |rule.safe| <= 3
    ensures Allowed(board, rule, player)
        <==> && IsEmpty(board, rule.empty[0]) && IsEmpty(board, rule.empty[1]) && (|rule.empty| == 3 ==> IsEmpty(board, rule.empty[2]))
             && !IsInCheck(board, rule.safe[0], player) && !IsInCheck(board, rule.safe[1], player)
             && (|rule.safe| == 3 ==> !IsInCheck(board, rule.safe[2], player))
  {
    AllEmptyListed(board, rule.empty);
    NoneAttackedListed(board, rule.safe, player);
  }

  /** Apply one castling rule to the move map: only the destination can change,
      and only to `Move`. */
  function Castle(board: Board<Color<Piece>>, acc: Board<MoveType>, rule: CastleRule, player: Turn): (r: Board<MoveType>)
    ensures forall q :: q != rule.destination ==> Get(r, q) == Get(acc, q)
    ensures Get(r, rule.destination) == if Allowed(board, rule, player) then Some(Move) else Get(acc, rule.destination)
  {
    if Allowed(board, rule, player) then Set(acc, rule.destination, Some(Move)) else acc
  }

  /** `get_king_moves(board, position, piece, castling, player)`: the standard
      move map, then the king-side rule if `castling.0`, then the queen-side
      rule if `castling.1`; the rules test attacks by the piece's own side. */
  function GetKingMoves(board: Board<Color<Piece>>, position: BoardPosition, piece: Color<Piece>, castling: (bool, bool), player: Turn, standard: StandardMoves): (r: Board<MoveType>)
    ensures var base := standard(board, position, piece, player);
            var side := SideOf(piece);
            forall q :: Get(r, q) ==
              if || (castling.0 && q == KingSideRule(piece).destination && Allowed(board, KingSideRule(piece), side))
                 || (castling.1 && q == QueenSideRule(piece).destination && Allowed(board, QueenSideRule(piece), side))
              then Some(Move) else Get(base, q)
  {
    var side := SideOf(piece);
    var base := standard(board, position, piece, player);
    var kingSide := if castling.0 then Castle(board, base, KingSideRule(piece), side) else base;
    if castling.1 then Castle(board, kingSide, QueenSideRule(piece), side) else kingSide
  }

  /** Castling only adds entries: every square the standard map marks stays
      marked, and only the two castling destinations can differ from it. */
  lemma CastlingOnlyAdds(board: Board<Color<Piece>>, position: BoardPosition, piece: Color<Piece>, castling: (bool, bool), player: Turn, standard: StandardMoves, q: BoardPosition)
    ensures var base := standard(board, position, piece, player);
            var r := GetKingMoves(board, position, piece, castling, player, standard);
            && (Get(base, q).Some? ==> Get(r, q).Some?)
            && (q != KingSideRule(piece).destination && q != QueenSideRule(piece).destination ==> Get(r, q) == Get(base, q))
            && (Get(r, q) != Get(base, q) ==> Get(r, q) == Some(Move))
  {
  }

  /** Without the rights, nothing is added: with `castling == (false, false)`
      the result is the standard move map. */
  lemma NoRightsNoCastling(board: Board<Color<Piece>>, position: BoardPosition, piece: Color<Piece>, player: Turn, standard: StandardMoves)
    ensures GetKingMoves(board, position, piece, (false, false), player, standard) == standard(board, position, piece, player)
  {
    var r := GetKingMoves(board, position, piece, (false, false), player, standard);
    var base := standard(board, position, piece, player);
    forall i | 0 <= i < 64
      ensures r[i] == base[i]
    {
      var p := BoardPosition(FileFromU8(i / 8).value, RankFromU8(i % 8).value);
      assert Index(p) == i;
    }
  }

  /** White king side: with the right, and G1 unmarked by the standard map,
      G1 becomes a `Move` exactly when F1 and G1 are empty and neither is
      attacked by Black. */
  lemma WhiteKingSide(board: Board<Color<Piece>>, position: BoardPosition, k: Piece, player: Turn, standard: StandardMoves, queenSide: bool)
    requires Get(standard(board, position, Color.White(k), player), BoardPosition(G, One)) == None
    ensures Get(GetKingMoves(board, position, Color.White(k), (true, queenSide), player, standard), BoardPosition(G, One)) == Some(Move)
        <==> && IsEmpty(board, BoardPosition(F, One)) && IsEmpty(board, BoardPosition(G, One))
             && !IsInCheck(board, BoardPosition(F, One), Turn.White) && !IsInCheck(board, BoardPosition(G, One), Turn.White)
  {
    Listed(board, KingSideRule(Color.White(k)), Turn.White);
  }

  /** Black king side, symmetric on F8 and G8. */
  lemma BlackKingSide(board: Board<Color<Piece>>, position: BoardPosition, k: Piece, player: Turn, standard: StandardMoves, queenSide: bool)
    requires Get(standard(board, position, Color.Black(k), player), BoardPosition(G, Eight)) == None
    ensures Get(GetKingMoves(board, position, Color.Black(k), (true, queenSide), player, standard), BoardPosition(G, Eight)) == Some(Move)
        <==> && IsEmpty(board, BoardPosition(F, Eight)) && IsEmpty(board, BoardPosition(G, Eight))
             && !IsInCheck(board, BoardPosition(F, Eight), Turn.Black) && !IsInCheck(board, BoardPosition(G, Eight), Turn.Black)
  {
    Listed(board, KingSideRule(Color.Black(k)), Turn.Black);
  }

  /** White queen side: the destination is B1, and B1, C1 and D1 must all be
      empty and unattacked. */
  lemma WhiteQueenSide(board: Board<Color<Piece>>, position: BoardPosition, k: Piece, player: Turn, standard: StandardMoves, kingSide: bool)
    requires Get(standard(board, position, Color.White(k), player), BoardPosition(B, One)) == None
    ensures Get(GetKingMoves(board, position, Color.White(k), (kingSide, true), player, standard), BoardPosition(B, One)) == Some(Move)
        <==> && IsEmpty(board, BoardPosition(B, One)) && IsEmpty(board, BoardPosition(C, One)) && IsEmpty(board, BoardPosition(D, One))
             && !IsInCheck(board, BoardPosition(B, One), Turn.White)
             && !IsInCheck(board, BoardPosition(C, One), Turn.White)
             && !IsInCheck(board, BoardPosition(D, One), Turn.White)
  {
    Listed(board, QueenSideRule(Color.White(k)), Turn.White);
  }

  /** Black queen side, as written: the destination is B8; B8 and C8 must be
      empty, D8 need not be; B8, C8 and D8 must be unattacked. */
  lemma BlackQueenSide(board: Board<Color<Piece>>, position: BoardPosition, k: Piece, player: Turn, standard: StandardMoves, kingSide: bool)
    requires Get(standard(board, position, Color.Black(k), player), BoardPosition(B, Eight)) == None
    ensures Get(GetKingMoves(board, position, Color.Black(k), (kingSide, true), player, standard), BoardPosition(B, Eight)) == Some(Move)
        <==> && IsEmpty(board, BoardPosition(B, Eight)) && IsEmpty(board, BoardPosition(C, Eight))
             && !IsInCheck(board, BoardPosition(B, Eight), Turn.Black)
             && !IsInCheck(board, BoardPosition(C, Eight), Turn.Black)
             && !IsInCheck(board, BoardPosition(D, Eight), Turn.Black)
  {
    Listed(board, QueenSideRule(Color.Black(k)), Turn.Black);
  }

  /** The king's home square is in none of the lists the rules inspect, and
      each rule's destination is on the side's back rank. */
  lemma RulesAvoidKingSquare(piece: Color<Piece>)
    ensures var home := if piece.White? then BoardPosition(E, One) else BoardPosition(E, Eight);
            var rank := if piece.White? then One else Eight;
            && home !in KingSideRule(piece).empty && home !in KingSideRule(piece).safe
            && home !in QueenSideRule(piece).empty && home !in QueenSideRule(piece).safe
            && KingSideRule(piece).destination.rank == rank && QueenSideRule(piece).destination.rank == rank
  {
  }

  /** Black queen side, as written, for a king that has walked to D8 and kept
      its right: its own square D8 is tested for attacks but not for
      emptiness, so the king castles past itself to B8. */
  lemma BlackQueenSideFromD8(board: Board<Color<Piece>>, k: Piece, player: Turn, standard: StandardMoves, kingSide: bool)
    requires Get(board, BoardPosition(D, Eight)) == Some(Color.Black(k))
    requires Get(standard(board, BoardPosition(D, Eight), Color.Black(k), player), BoardPosition(B, Eight)) == None
    requires IsEmpty(board, BoardPosition(B, Eight)) && IsEmpty(board, BoardPosition(C, Eight))
    requires !IsInCheck(board, BoardPosition(B, Eight), Turn.Black) && !IsInCheck(board, BoardPosition(C, Eight), Turn.Black)
    requires !IsInCheck(board, BoardPosition(D, Eight), Turn.Black)
    ensures BoardPosition(D, Eight) in QueenSideRule(Color.Black(k)).safe
    ensures BoardPosition(D, Eight) !in QueenSideRule(Color.Black(k)).empty
    ensures Get(GetKingMoves(board, BoardPosition(D, Eight), Color.Black(k), (kingSide, true), player, standard), BoardPosition(B, Eight)) == Some(Move)
  {
    BlackQueenSide(board, BoardPosition(D, Eight), k, player, standard, kingSide);
  }
}
