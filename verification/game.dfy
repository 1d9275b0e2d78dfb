/** The game aggregate: `ChessGame`, `get_valid_moves` and `move_piece`
    (src/board.rs), and the standard initial position
    (src/board/trait_implementation.rs).

    The fields follow the newer `ChessGame` of src/board/trait_implementation.rs
    without the two position histories. `move_piece` follows src/board.rs, the
    only revision of it there is; it never touches the fields that file does
    not know. `get_standard_valid_move` is defined elsewhere in the crate and
    not modelled: its move map is the parameter `standard`.
 */
module Game {
  import opened Outcomes
  import opened Positions
  import opened Pieces
  import opened Shorthands
  import opened Boards
  import opened PawnMoves
  import opened KingMoves

  /** `ChessGame`. The element type of `en_passant` is not shown; it is
      modelled as a sequence of squares. */
  datatype ChessGame = ChessGame(
    board: Board<Color<Piece>>,
    turn: Turn,
    state: GameState,
    whiteKing: BoardPosition,
    blackKing: BoardPosition,
    enPassant: seq<BoardPosition>,
    halfMove: nat,
    fullMove: nat)

  /** The result of `move_piece`: the game afterwards and the returned value. */
  datatype Transition = Transition(game: ChessGame, outcome: Result<GameState>)

  // ---------------------------------------------------------------------
  // get_valid_moves

  /** What the `unwrap`s of `get_pawn_moves` demand: a pawn on the square has
      a forward walk that stays on the board until it is blocked. */
  predicate MovesDefined(board: Board<Color<Piece>>, position: BoardPosition) {
    match Get(board, position)
    case None => true
    case Some(piece) => piece.inner.Pawn? ==> PawnWalkDefined(board, position, piece)
  }

  /** `get_valid_moves`: nothing for an empty square; otherwise the king
      generator (with the king's castling rights and its own side), the pawn
      generator, or the standard move map, by piece kind. */
  function GetValidMoves(game: ChessGame, position: BoardPosition, standard: StandardMoves): (r: Option<Board<MoveType>>)
    requires MovesDefined(game.board, position)
    ensures r.None? <==> Get(game.board, position).None?
    ensures r.Some? && Get(game.board, position).value.inner.Pawn? ==>
              r.value == GetPawnMoves(game.board, position, Get(game.board, position).value)
    ensures r.Some? && Get(game.board, position).value.inner.Pawn? ==>
              forall q :: && (Get(r.value, q) == Some(Move) ==> IsEmptySquare(game.board, q))
                          && (Get(r.value, q) == Some(Capture) ==> HeldBy(game.board, q, Opponent(SideOf(Get(game.board, position).value))))
  {
    match Get(game.board, position)
    case None => None
    case Some(piece) =>
      match piece.inner
      case King(_, castling) => Some(GetKingMoves(game.board, position, piece, castling, SideOf(piece), standard))
      case Pawn(_) =>
        var moves := GetPawnMoves(game.board, position, piece);
        assert forall q :: && (Get(moves, q) == Some(Move) ==> IsEmptySquare(game.board, q))
                           && (Get(moves, q) == Some(Capture) ==> HeldBy(game.board, q, Opponent(SideOf(piece)))) by {
          forall q
            ensures && (Get(moves, q) == Some(Move) ==> IsEmptySquare(game.board, q))
                    && (Get(moves, q) == Some(Capture) ==> HeldBy(game.board, q, Opponent(SideOf(piece))))
          {
            PawnMovesSound(game.board, position, piece, q);
          }
        }
        Some(moves)
      case _ => Some(standard(game.board, position, piece, SideOf(piece)))
  }

  predicate IsEmptySquare(board: Board<Color<Piece>>, q: BoardPosition) {
    Get(board, q).None?
  }

  /** The square holds a piece of side `side`. */
  predicate HeldBy(board: Board<Color<Piece>>, q: BoardPosition, side: Turn) {
    Get(board, q).Some? && SideOf(Get(board, q).value) == side
  }

  /** `get_valid_moves` never consults whose turn it is, nor any field other
      than the board. */
  lemma ValidMovesIgnoreTurn(game: ChessGame, other: ChessGame, position: BoardPosition, standard: StandardMoves)
    requires MovesDefined(game.board, position)
    requires other.board == game.board
    ensures GetValidMoves(other, position, standard) == GetValidMoves(game, position, standard)
  {
  }

  /** A king's map is `get_king_moves` with the king's own castling rights,
      tested for the king's own side. */
  lemma ValidMovesKing(game: ChessGame, position: BoardPosition, standard: StandardMoves)
    requires Get(game.board, position).Some? && Get(game.board, position).value.inner.King?
    ensures var piece := Get(game.board, position).value;
            GetValidMoves(game, position, standard) == Some(GetKingMoves(game.board, position, piece, piece.inner.castling, SideOf(piece), standard))
  {
  }

  /** A king's map is the standard map plus castling, and any other non-pawn
      piece gets exactly the standard map. */
  lemma ValidMovesDispatch(game: ChessGame, position: BoardPosition, standard: StandardMoves)
    requires MovesDefined(game.board, position)
    requires Get(game.board, position).Some? && !Get(game.board, position).value.inner.Pawn?
    ensures var piece := Get(game.board, position).value;
            var base := standard(game.board, position, piece, SideOf(piece));
            var r := GetValidMoves(game, position, standard).value;
            && (!piece.inner.King? ==> r == base)
            && (piece.inner.King? && piece.inner.castling == (false, false) ==> r == base)
            && (forall q :: Get(base, q).Some? ==> Get(r, q).Some?)
  {
    var piece := Get(game.board, position).value;
    if piece.inner.King? {
      var castling := piece.inner.castling;
      if castling == (false, false) {
        NoRightsNoCastling(game.board, position, piece, SideOf(piece), standard);
      }
      forall q | Get(standard(game.board, position, piece, SideOf(piece)), q).Some?
        ensures Get(GetValidMoves(game, position, standard).value, q).Some?
      {
        CastlingOnlyAdds(game.board, position, piece, castling, SideOf(piece), standard, q);
      }
    }
  }

  // ---------------------------------------------------------------------
  // move_piece

  /** What `move_piece` demands: it asks for the move map only after the
      side check, so only a piece of the side to move needs a defined pawn
      walk. */
  predicate MoveDefined(game: ChessGame, from: BoardPosition) {
    HeldBy(game.board, from, game.turn) ==> MovesDefined(game.board, from)
  }

  /** `move_piece(from, to)`. A piece of the side to move must stand on
      `from` (`NoPiece`), and `to` must be in its move map (`InvalidMove`);
      `NoMoves` is the source's answer to a missing map, which cannot occur.
      On success the piece is lifted from `from` and put on `to` unchanged,
      the turn passes and `Ongoing` is returned; the `state` field, the king
      squares and the other fields are not updated. An error changes nothing. */
  function MovePiece(game: ChessGame, from: BoardPosition, to: BoardPosition, standard: StandardMoves): (t: Transition)
    requires MoveDefined(game, from)
    ensures t.outcome.Err? ==> t.game == game
    ensures t.outcome == Err(NoPiece) <==> !HeldBy(game.board, from, game.turn)
    ensures t.outcome != Err(NoMoves)
    ensures t.outcome == Err(InvalidMove)
        <==> HeldBy(game.board, from, game.turn) && Get(GetValidMoves(game, from, standard).value, to).None?
    ensures t.outcome.Ok? ==>
              && t.outcome.value == Ongoing
              && Get(t.game.board, to) == Get(game.board, from)
              && (from != to ==> Get(t.game.board, from) == None)
              && (forall q :: q != from && q != to ==> Get(t.game.board, q) == Get(game.board, q))
              && t.game.turn == Opponent(game.turn)
              && t.game == game.(board := t.game.board, turn := t.game.turn)
  {
    match Get(game.board, from)
    case None => Transition(game, Err(NoPiece))
    case Some(piece) =>
      if SideOf(piece) != game.turn then Transition(game, Err(NoPiece))
      else
        match GetValidMoves(game, from, standard)
        case None => Transition(game, Err(NoMoves))
        case Some(moves) =>
          if Get(moves, to).None? then Transition(game, Err(InvalidMove))
          else
            var board := Set(Set(game.board, from, None), to, Some(piece));
            Transition(game.(board := board, turn := Opponent(game.turn)), Ok(Ongoing))
  }

  /** A move succeeds exactly when a piece of the side to move stands on
      `from` and `to` is in that piece's move map. */
  lemma MoveSucceedsIff(game: ChessGame, from: BoardPosition, to: BoardPosition, standard: StandardMoves)
    requires MoveDefined(game, from)
    ensures MovePiece(game, from, to, standard).outcome.Ok?
        <==> HeldBy(game.board, from, game.turn) && Get(GetValidMoves(game, from, standard).value, to).Some?
  {
  }

  /** Right after a successful move the moved piece belongs to the side that is
      no longer to move, so moving it again is refused with `NoPiece`. */
  lemma NoSecondMoveBySameSide(game: ChessGame, from: BoardPosition, to: BoardPosition, next: BoardPosition, standard: StandardMoves)
    requires MoveDefined(game, from)
    requires MovePiece(game, from, to, standard).outcome.Ok?
    ensures var after := MovePiece(game, from, to, standard).game;
            MovePiece(after, to, next, standard) == Transition(after, Err(NoPiece))
  {
    var after := MovePiece(game, from, to, standard).game;
    assert HeldBy(game.board, from, game.turn);
    assert Get(after.board, to) == Get(game.board, from);
    assert after.turn == Opponent(game.turn);
  }

  /** A piece of the side not to move is refused before its move map is
      asked for, so no walk condition is needed for it: a Black pawn whose
      walk would leave the board is answered with `NoPiece` on White's turn. */
  lemma WrongSideRefused(game: ChessGame, from: BoardPosition, to: BoardPosition, standard: StandardMoves)
    requires Get(game.board, from).Some? && SideOf(Get(game.board, from).value) != game.turn
    ensures MoveDefined(game, from)
    ensures MovePiece(game, from, to, standard) == Transition(game, Err(NoPiece))
  {
  }

  /** Two successful moves give the turn back to the side that started. */
  lemma TwoMovesRestoreTurn(game: ChessGame, a: BoardPosition, b: BoardPosition, c: BoardPosition, d: BoardPosition, standard: StandardMoves)
    requires MoveDefined(game, a)
    requires MovePiece(game, a, b, standard).outcome.Ok?
    requires MoveDefined(MovePiece(game, a, b, standard).game, c)
    requires MovePiece(MovePiece(game, a, b, standard).game, c, d, standard).outcome.Ok?
    ensures MovePiece(MovePiece(game, a, b, standard).game, c, d, standard).game.turn == game.turn
  {
    var t := game.turn;
    assert Opponent(Opponent(t)) == t by {
      match t
      case White =>
      case Black =>
    }
  }

  // ---------------------------------------------------------------------
  // The standard initial position

  /** A square and the piece `Board::set` puts on it. */
  type Placement = (BoardPosition, Color<Piece>)

  /** No later placement in the list writes the square of placement `j`. */
  predicate LastWrite(pl: seq<Placement>, j: int)
    requires 0 <= j < |pl|
  {
    forall k :: j < k < |pl| ==> pl[k].0 != pl[j].0
  }

  /** A run of `Board::set` calls in list order: squares the list never names
      keep their value, and the last write to a square wins. */
  function SetAll(board: Board<Color<Piece>>, pl: seq<Placement>): (r: Board<Color<Piece>>)
    ensures forall q :: (forall j :: 0 <= j < |pl| ==> pl[j].0 != q) ==> Get(r, q) == Get(board, q)
    ensures forall j :: 0 <= j < |pl| && LastWrite(pl, j) ==> Get(r, pl[j].0) == Some(pl[j].1)
    decreases |pl|
  {
    if |pl| == 0 then board
    else
      var next := Set(board, pl[0].0, Some(pl[0].1));
      var rest := pl[1..];
      var r := SetAll(next, rest);
      assert forall j :: 0 < j < |pl| ==> pl[j] == rest[j - 1];
      assert forall j :: 0 < j < |pl| && LastWrite(pl, j) ==> LastWrite(rest, j - 1);
      r
  }

  /** White's back rank in the order of src/board/trait_implementation.rs:19-29. */
  const WhiteBackRank: seq<Placement> := [
    (BoardPosition(A, One), WHITE_ROOK), (BoardPosition(H, One), WHITE_ROOK),
    (BoardPosition(B, One), WHITE_KNIGHT), (BoardPosition(G, One), WHITE_KNIGHT),
    (BoardPosition(C, One), WHITE_BISHOP), (BoardPosition(F, One), WHITE_BISHOP),
    (BoardPosition(D, One), WHITE_QUEEN), (BoardPosition(E, One), NEW_WHITE_KING)]

  /** Black's back rank in the order of src/board/trait_implementation.rs:40-50. */
  const BlackBackRank: seq<Placement> := [
    (BoardPosition(A, Eight), BLACK_ROOK), (BoardPosition(H, Eight), BLACK_ROOK),
    (BoardPosition(B, Eight), BLACK_KNIGHT), (BoardPosition(G, Eight), BLACK_KNIGHT),
    (BoardPosition(C, Eight), BLACK_BISHOP), (BoardPosition(F, Eight), BLACK_BISHOP),
    (BoardPosition(D, Eight), BLACK_QUEEN), (BoardPosition(E, Eight), NEW_BLACK_KING)]

  /** One pawn per file on `rank`, files A to H in order (the `FILE` constant
      the loop iterates is not shown; it is taken to list A..H). */
  function PawnRow(rank: Rank, pawn: Color<Piece>): (pl: seq<Placement>)
    ensures |pl| == 8
    ensures forall j :: 0 <= j < 8 ==> pl[j].0.rank == rank && pl[j].1 == pawn
  {
    seq(8, j requires 0 <= j < 8 => (BoardPosition(FileFromU8(j).value, rank), pawn))
  }

  /** `ChessGame::default`'s board: the four groups of `set` calls in source order. */
  function InitialBoard(): Board<Color<Piece>>
  {
    var whites := SetAll(SetAll(EmptyBoard(), WhiteBackRank), PawnRow(Two, NEW_WHITE_PAWN));
    SetAll(SetAll(whites, BlackBackRank), PawnRow(Seven, NEW_BLACK_PAWN))
  }

  /** `ChessGame::default`. */
  function InitialGame(): ChessGame
  {
    ChessGame(InitialBoard(), Turn.White, Ongoing, BoardPosition(E, One), BoardPosition(E, Eight), [], 0, 0)
  }

  /** The piece standing on file `f` of a back rank. */
  function HomePiece(f: File): Piece
  {
    match f
    case A => Rook
    case H => Rook
    case B => Knight
    case G => Knight
    case C => Bishop
    case F => Bishop
    case D => Queen
    case E => NewKing
  }

  /** The initial position, square by square: R N B Q K B N R on the back
      ranks, unmoved pawns on ranks Two and Seven, and nothing in between. */
  function InitialSquare(q: BoardPosition): Option<Color<Piece>>
  {
    match q.rank
    case One => Some(Color.White(HomePiece(q.file)))
    case Two => Some(Color.White(NewPawn))
    case Seven => Some(Color.Black(NewPawn))
    case Eight => Some(Color.Black(HomePiece(q.file)))
    case _ => None
  }

  /** A pawn row writes exactly its own rank. */
  lemma PawnRowAt(board: Board<Color<Piece>>, rank: Rank, pawn: Color<Piece>, q: BoardPosition)
    ensures Get(SetAll(board, PawnRow(rank, pawn)), q) == if q.rank == rank then Some(pawn) else Get(board, q)
  {
    var pl := PawnRow(rank, pawn);
    if q.rank == rank {
      var j := FileToU8(q.file);
      FileRoundTrip(q.file);
      assert pl[j].0 == q;
      forall k | j < k < 8
        ensures pl[k].0 != pl[j].0
      {
        assert FileToU8(pl[k].0.file) == k;
      }
      assert LastWrite(pl, j);
    }
  }

  /** A back rank writes exactly its own rank, with `HomePiece` of each file. */
  lemma BackRankAt(board: Board<Color<Piece>>, pl: seq<Placement>, rank: Rank, side: Turn, q: BoardPosition)
    requires (rank == One && side == Turn.White && pl == WhiteBackRank) || (rank == Eight && side == Turn.Black && pl == BlackBackRank)
    ensures Get(SetAll(board, pl), q) ==
              if q.rank == rank then Some(if side == Turn.White then Color.White(HomePiece(q.file)) else Color.Black(HomePiece(q.file)))
              else Get(board, q)
  {
    assert |pl| == 8;
    var j := match q.file
      case A => 0 case H => 1 case B => 2 case G => 3
      case C => 4 case F => 5 case D => 6 case E => 7;
    if q.rank == rank {
      assert pl[j].0 == q;
      assert LastWrite(pl, j);
    } else {
      assert forall k :: 0 <= k < 8 ==> pl[k].0.rank == rank;
    }
  }

  /** Every square of the initial board holds `InitialSquare`. */
  lemma InitialLayout(q: BoardPosition)
    ensures Get(InitialBoard(), q) == InitialSquare(q)
  {
    var b1 := SetAll(EmptyBoard(), WhiteBackRank);
    var b2 := SetAll(b1, PawnRow(Two, NEW_WHITE_PAWN));
    var b3 := SetAll(b2, BlackBackRank);
    BackRankAt(EmptyBoard(), WhiteBackRank, One, Turn.White, q);
    PawnRowAt(b1, Two, NEW_WHITE_PAWN, q);
    BackRankAt(b2, BlackBackRank, Eight, Turn.Black, q);
    PawnRowAt(b3, Seven, NEW_BLACK_PAWN, q);
  }

  /** The cached king squares E1 and E8 hold the kings, both with full
      castling rights. */
  lemma InitialKings(q: BoardPosition)
    ensures q.file == E && q.rank == One ==> Get(InitialBoard(), q) == Some(NEW_WHITE_KING)
    ensures q.file == E && q.rank == Eight ==> Get(InitialBoard(), q) == Some(NEW_BLACK_KING)
    ensures NEW_WHITE_KING.inner.castling == (true, true) && NEW_BLACK_KING.inner.castling == (true, true)
  {
    InitialLayout(q);
  }

  /** White moves first, the state is `Ongoing`, and the counters and the
      en-passant list start empty. */
  lemma InitialGameFields()
    ensures var g := InitialGame();
            && g.board == InitialBoard() && g.turn == Turn.White && g.state == Ongoing
            && g.whiteKing == BoardPosition(E, One) && g.blackKing == BoardPosition(E, Eight)
            && g.halfMove == 0 && g.fullMove == 0 && g.enPassant == []
  {
  }

  // ---------------------------------------------------------------------
  // Counting pieces

  /** Number of occupied entries. */
  function CountOccupied<T>(s: seq<Option<T>>): (n: nat)
    ensures n <= |s|
  {
    if |s| == 0 then 0 else CountOccupied(s[..|s| - 1]) + (if s[|s| - 1].Some? then 1 else 0)
  }

  /** Occupied ranks of the initial position, by rank number. */
  predicate HomeRank(r: int) {
    r == 0 || r == 1 || r == 6 || r == 7
  }

  /** Number of indices below `n` whose rank number `i % 8` is a home rank. */
  function HomeCount(n: nat): nat
  {
    4 * (n / 8) + [0, 1, 2, 2, 2, 2, 2, 3][n % 8]
  }

  /** Going from `m` to `m + 1` adds one exactly when `m` is on a home rank. */
  lemma HomeCountStep(m: nat)
    ensures HomeCount(m + 1) == HomeCount(m) + (if HomeRank(m % 8) then 1 else 0)
  {
    var q := m / 8;
    var r := m % 8;
    assert m == 8 * q + r;
    if r == 7 {
      assert m + 1 == 8 * (q + 1) + 0;
      assert (m + 1) / 8 == q + 1 && (m + 1) % 8 == 0;
    } else {
      assert m + 1 == 8 * q + (r + 1);
      assert (m + 1) / 8 == q && (m + 1) % 8 == r + 1;
    }
  }

  /** A board occupied exactly on the home ranks has `HomeCount(n)` pieces
      among its first `n` entries. */
  lemma {:induction false} CountHomeRanks<T>(s: seq<Option<T>>, n: nat)
    requires n <= |s|
    requires forall i :: 0 <= i < |s| ==> (s[i].Some? <==> HomeRank(i % 8))
    ensures CountOccupied(s[..n]) == HomeCount(n)
  {
    if n > 0 {
      var m := n - 1;
      CountHomeRanks(s, m);
      assert s[..n][..m] == s[..m];
      assert s[..n][m] == s[m];
      HomeCountStep(m);
    }
  }

  /** The square stored at index `i`. */
  function SquareAt(i: int): (p: BoardPosition)
    requires 0 <= i < 64
    ensures Index(p) == i
  {
    BoardPosition(FileFromU8(i / 8).value, RankFromU8(i % 8).value)
  }

  /** A board laid out as the initial position has exactly 32 pieces: ranks
      Three to Six are empty. */
  lemma InitialPieceCount(b: Board<Color<Piece>>)
    requires forall q :: Get(b, q) == InitialSquare(q)
    ensures CountOccupied(b) == 32
  {
    forall i | 0 <= i < 64
      ensures b[i].Some? <==> HomeRank(i % 8)
    {
      var p := SquareAt(i);
      assert Get(b, p) == InitialSquare(p);
      assert RankToU8(p.rank) == i % 8;
    }
    CountHomeRanks(b, 64);
    assert b[..64] == b;
  }
}
