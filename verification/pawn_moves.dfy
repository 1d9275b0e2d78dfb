/** `get_pawn_moves` (src/piece/pawn_moves.rs): the forward walk, the
    diagonal captures and the en-passant marking. No filtering against
    leaving the own king in check is done, as in the source.

    The forward walk is written over an explicit path of squares (`Path`,
    one square per multiplier) and then restated per multiplier.
 */
module PawnMoves {
  import opened Outcomes
  import opened Positions
  import opened Pieces
  import opened Boards
  import opened Rays

  // ---------------------------------------------------------------------
  // The forward walk over a path

  /** Every path square reached across empty squares is on the board, so the
      walk's `add(..).unwrap()` never fails. */
  predicate PathDefined(board: Board<Color<Piece>>, path: seq<Result<BoardPosition>>) {
    forall k :: 0 <= k < |path| && ClearBefore(board, path, k) ==> path[k].Ok?
  }

  /** `q` is marked by the forward walk: it is an empty path square and every
      earlier path square is empty too. */
  predicate Reached(board: Board<Color<Piece>>, path: seq<Result<BoardPosition>>, q: BoardPosition) {
    exists k :: 0 <= k < |path| && path[k] == Ok(q) && IsEmpty(board, q) && ClearBefore(board, path, k)
  }

  /** The reached squares of a path whose first square is on the board. */
  lemma ReachedUnfold(board: Board<Color<Piece>>, path: seq<Result<BoardPosition>>, q: BoardPosition)
    requires |path| > 0 && path[0].Ok?
    ensures Reached(board, path, q) <==>
              IsEmpty(board, path[0].value) && (q == path[0].value || Reached(board, path[1..], q))
  {
    var tail := path[1..];
    if Reached(board, path, q) {
      var k :| 0 <= k < |path| && path[k] == Ok(q) && IsEmpty(board, q) && ClearBefore(board, path, k);
      if k > 0 {
        assert tail[k - 1] == path[k];
        assert ClearBefore(board, tail, k - 1) by {
          forall j | 0 <= j < k - 1
            ensures tail[j].Ok? && IsEmpty(board, tail[j].value)
          {
            assert tail[j] == path[j + 1];
          }
        }
      }
    }
    if IsEmpty(board, path[0].value) && Reached(board, tail, q) {
      var k :| 0 <= k < |tail| && tail[k] == Ok(q) && IsEmpty(board, q) && ClearBefore(board, tail, k);
      assert path[k + 1] == tail[k];
      assert ClearBefore(board, path, k + 1) by {
        forall j | 0 <= j < k + 1
          ensures path[j].Ok? && IsEmpty(board, path[j].value)
        {
          if j > 0 {
            assert path[j] == tail[j - 1];
          }
        }
      }
    }
    if IsEmpty(board, path[0].value) && q == path[0].value {
      assert ClearBefore(board, path, 0);
    }
  }

  /** The walk's tail is defined when its first square is empty. */
  lemma PathDefinedTail(board: Board<Color<Piece>>, path: seq<Result<BoardPosition>>)
    requires |path| > 0 && PathDefined(board, path)
    ensures path[0].Ok?
    ensures IsEmpty(board, path[0].value) ==> PathDefined(board, path[1..])
  {
    assert ClearBefore(board, path, 0);
    var tail := path[1..];
    if IsEmpty(board, path[0].value) {
      forall k | 0 <= k < |tail| && ClearBefore(board, tail, k)
        ensures tail[k].Ok?
      {
        assert tail[k] == path[k + 1];
        assert ClearBefore(board, path, k + 1) by {
          forall j | 0 <= j < k + 1
            ensures path[j].Ok? && IsEmpty(board, path[j].value)
          {
            if j > 0 {
              assert path[j] == tail[j - 1];
            }
          }
        }
      }
    }
  }

  /** The inner loop of `get_pawn_moves` for one direction: each empty square
      is marked `Move`; the first occupied square ends the loop unmarked. */
  function ForwardWalk(board: Board<Color<Piece>>, path: seq<Result<BoardPosition>>, acc: Board<MoveType>): (r: Board<MoveType>)
    requires PathDefined(board, path)
    ensures forall q :: Get(r, q) == if Reached(board, path, q) then Some(Move) else Get(acc, q)
  {
    if |path| == 0 then acc
    else
      PathDefinedTail(board, path);
      var first := path[0].value;
      if IsEmpty(board, first) then
        var r := ForwardWalk(board, path[1..], Set(acc, first, Some(Move)));
        assert forall q :: Get(r, q) == if Reached(board, path, q) then Some(Move) else Get(acc, q) by {
          forall q
            ensures Get(r, q) == if Reached(board, path, q) then Some(Move) else Get(acc, q)
          {
            ReachedUnfold(board, path, q);
          }
        }
        r
      else
        assert forall q :: !Reached(board, path, q) by {
          forall q
            ensures !Reached(board, path, q)
          {
            ReachedUnfold(board, path, q);
          }
        }
        acc
  }

  // ---------------------------------------------------------------------
  // The forward walk per multiplier

  /** Every multiplier of `lo..hi` reached across empty squares lands on the
      board: the condition under which the walk never panics. */
  predicate ForwardDefined(board: Board<Color<Piece>>, position: BoardPosition, v: Vector, lo: int, hi: int)
    requires SmallVector(v) && 0 <= lo <= hi <= 8
  {
    forall k :: lo <= k < hi && ClearBetween(board, position, v, lo, k) ==> Step(position, v, k).Ok?
  }

  /** `q` is marked `Move` along `v`: some multiplier `k` of `lo..hi` reaches
      the empty square `q`, and every multiplier of `lo..k` reaches an empty square. */
  predicate ForwardReach(board: Board<Color<Piece>>, position: BoardPosition, v: Vector, lo: int, hi: int, q: BoardPosition)
    requires SmallVector(v) && 0 <= lo <= hi <= 8
  {
    exists k :: lo <= k < hi && Step(position, v, k) == Ok(q) && IsEmpty(board, q) && ClearBetween(board, position, v, lo, k)
  }

  lemma ForwardDefinedOnPath(board: Board<Color<Piece>>, position: BoardPosition, v: Vector, lo: int, hi: int)
    requires SmallVector(v) && 0 <= lo <= hi <= 8
    ensures ForwardDefined(board, position, v, lo, hi) <==> PathDefined(board, Path(position, v, lo, hi))
  {
    var path := Path(position, v, lo, hi);
    if ForwardDefined(board, position, v, lo, hi) {
      forall i | 0 <= i < |path| && ClearBefore(board, path, i)
        ensures path[i].Ok?
      {
        var k := lo + i;
        PathAt(position, v, lo, hi, i, k);
        PathClearBetween(board, position, v, lo, hi, k);
      }
    }
    if PathDefined(board, path) {
      forall k | lo <= k < hi && ClearBetween(board, position, v, lo, k)
        ensures Step(position, v, k).Ok?
      {
        var i := k - lo;
        PathAt(position, v, lo, hi, i, k);
        PathClearBetween(board, position, v, lo, hi, k);
      }
    }
  }

  lemma ReachedOnPathIsForward(board: Board<Color<Piece>>, position: BoardPosition, v: Vector, lo: int, hi: int, q: BoardPosition)
    requires SmallVector(v) && 0 <= lo <= hi <= 8
    ensures Reached(board, Path(position, v, lo, hi), q) <==> ForwardReach(board, position, v, lo, hi, q)
  {
    var path := Path(position, v, lo, hi);
    if Reached(board, path, q) {
      var i :| 0 <= i < |path| && path[i] == Ok(q) && IsEmpty(board, q) && ClearBefore(board, path, i);
      var k := lo + i;
      PathAt(position, v, lo, hi, i, k);
      PathClearBetween(board, position, v, lo, hi, k);
      assert lo <= k < hi && Step(position, v, k) == Ok(q) && IsEmpty(board, q) && ClearBetween(board, position, v, lo, k);
    }
    if ForwardReach(board, position, v, lo, hi, q) {
      var k :| lo <= k < hi && Step(position, v, k) == Ok(q) && IsEmpty(board, q) && ClearBetween(board, position, v, lo, k);
      var i := k - lo;
      PathAt(position, v, lo, hi, i, k);
      PathClearBetween(board, position, v, lo, hi, k);
      assert 0 <= i < |path| && path[i] == Ok(q) && IsEmpty(board, q) && ClearBefore(board, path, i);
    }
  }

  /** The outer loop over the piece's base vectors: a square is marked `Move`
      when some direction's walk reaches it. */
  function ForwardAll(board: Board<Color<Piece>>, position: BoardPosition, vectors: seq<Vector>, lo: int, hi: int, acc: Board<MoveType>): (r: Board<MoveType>)
    requires AllSmall(vectors) && 0 <= lo <= hi <= 8
    requires forall i :: 0 <= i < |vectors| ==> ForwardDefined(board, position, vectors[i], lo, hi)
    ensures forall q :: Get(r, q) ==
              if exists i :: 0 <= i < |vectors| && ForwardReach(board, position, vectors[i], lo, hi, q)
              then Some(Move) else Get(acc, q)
  {
    if |vectors| == 0 then acc
    else
      var v := vectors[0];
      ForwardDefinedOnPath(board, position, v, lo, hi);
      var walked := ForwardWalk(board, Path(position, v, lo, hi), acc);
      assert forall i :: 1 <= i < |vectors| ==> vectors[1..][i - 1] == vectors[i];
      var r := ForwardAll(board, position, vectors[1..], lo, hi, walked);
      assert forall q :: Get(r, q) ==
               if exists i :: 0 <= i < |vectors| && ForwardReach(board, position, vectors[i], lo, hi, q)
               then Some(Move) else Get(acc, q) by {
        forall q
          ensures Get(r, q) ==
                  if exists i :: 0 <= i < |vectors| && ForwardReach(board, position, vectors[i], lo, hi, q)
                  then Some(Move) else Get(acc, q)
        {
          ReachedOnPathIsForward(board, position, v, lo, hi, q);
        }
      }
      r
  }

  // ---------------------------------------------------------------------
  // Captures and en passant

  /** The two marking passes after the forward walk. */
  datatype Marking = Diagonal | EnPassant

  /** The piece on `q` is one the pass marks for a pawn of `side`: any enemy
      piece for the diagonal pass, an enemy pawn in `PosibleEnPassant` state
      for the en-passant pass. */
  predicate Marks(m: Marking, board: Board<Color<Piece>>, q: BoardPosition, side: Turn) {
    match m
    case Diagonal => EnemyAt(board, q, side)
    case EnPassant => EnemyAt(board, q, side) && Get(board, q).value.inner == Pawn(PosibleEnPassant)
  }

  /** `q` is one of the squares `dirs` away from `position`. */
  predicate OffsetOf(position: BoardPosition, dirs: seq<Vector>, q: BoardPosition) {
    exists i :: 0 <= i < |dirs| && Add(position, dirs[i]) == Ok(q)
  }

  /** One `if let Ok(position) = position.add(d)` block per direction, in order:
      each on-board square holding a piece the pass marks becomes `Capture`. */
  function MarkAll(board: Board<Color<Piece>>, acc: Board<MoveType>, position: BoardPosition, dirs: seq<Vector>, m: Marking, side: Turn): (r: Board<MoveType>)
    ensures forall q :: Get(r, q) ==
              if OffsetOf(position, dirs, q) && Marks(m, board, q, side) then Some(Capture) else Get(acc, q)
    decreases |dirs|
  {
    if |dirs| == 0 then acc
    else
      var marked := match Add(position, dirs[0])
        case Err(_) => acc
        case Ok(q) => if Marks(m, board, q, side) then Set(acc, q, Some(Capture)) else acc;
      assert forall i :: 1 <= i < |dirs| ==> dirs[1..][i - 1] == dirs[i];
      MarkAll(board, marked, position, dirs[1..], m, side)
  }

  /** The diagonal capture directions, exactly as written: White looks at
      (-1, 1) and (1, 1); Black at (-1, -1) and (1, 1). */
  function CaptureVectors(piece: Color<Piece>): seq<Vector>
  {
    match piece
    case White(_) => [(-1, 1), (1, 1)]
    case Black(_) => [(-1, -1), (1, 1)]
  }

  /** The en-passant squares: the two same-rank neighbours. */
  const EnPassantVectors: seq<Vector> := [(-1, 0), (1, 0)]

  // ---------------------------------------------------------------------
  // get_pawn_moves

  /** The multiplier range of the piece's forward walk. */
  function WalkRange(piece: Color<Piece>): StepRange
  {
    ToRange(StepCountOf(piece))
  }

  /** No forward walk of the piece runs off the board before it is blocked;
      this is what the walk's `unwrap` demands of its caller. */
  predicate PawnWalkDefined(board: Board<Color<Piece>>, position: BoardPosition, piece: Color<Piece>) {
    var range := WalkRange(piece);
    var vectors := BaseVectors(piece);
    forall i :: 0 <= i < |vectors| ==> ForwardDefined(board, position, vectors[i], range.start, range.end)
  }

  /** `q` is the target of a diagonal capture or of an en-passant capture. */
  predicate CaptureTarget(board: Board<Color<Piece>>, position: BoardPosition, piece: Color<Piece>, q: BoardPosition) {
    || (OffsetOf(position, CaptureVectors(piece), q) && Marks(Diagonal, board, q, SideOf(piece)))
    || (OffsetOf(position, EnPassantVectors, q) && Marks(EnPassant, board, q, SideOf(piece)))
  }

  /** `q` is reached by the forward walk along one of the piece's base vectors. */
  predicate ForwardTarget(board: Board<Color<Piece>>, position: BoardPosition, piece: Color<Piece>, q: BoardPosition) {
    var range := WalkRange(piece);
    var vectors := BaseVectors(piece);
    exists i :: 0 <= i < |vectors| && ForwardReach(board, position, vectors[i], range.start, range.end, q)
  }

  /** The forward part of `get_pawn_moves`, on an empty move map. */
  function ForwardPass(board: Board<Color<Piece>>, position: BoardPosition, piece: Color<Piece>): (r: Board<MoveType>)
    requires PawnWalkDefined(board, position, piece)
    ensures forall q :: Get(r, q) == if ForwardTarget(board, position, piece, q) then Some(Move) else None
  {
    var range := WalkRange(piece);
    var vectors := BaseVectors(piece);
    var r := ForwardAll(board, position, vectors, range.start, range.end, EmptyBoard());
    assert forall q :: ForwardTarget(board, position, piece, q)
             <==> exists i :: 0 <= i < |vectors| && ForwardReach(board, position, vectors[i], range.start, range.end, q);
    r
  }

  /** Both capture passes, over any move map. */
  function CapturePasses(board: Board<Color<Piece>>, position: BoardPosition, piece: Color<Piece>, acc: Board<MoveType>): (r: Board<MoveType>)
    ensures forall q :: Get(r, q) == if CaptureTarget(board, position, piece, q) then Some(Capture) else Get(acc, q)
  {
    var side := SideOf(piece);
    var captures := MarkAll(board, acc, position, CaptureVectors(piece), Diagonal, side);
    MarkAll(board, captures, position, EnPassantVectors, EnPassant, side)
  }

  /** `get_pawn_moves(board, position, piece)`: a capture target is marked
      `Capture`, any other square the forward walk reaches is marked `Move`,
      and every other square is empty. */
  function GetPawnMoves(board: Board<Color<Piece>>, position: BoardPosition, piece: Color<Piece>): (r: Board<MoveType>)
    requires PawnWalkDefined(board, position, piece)
    ensures forall q :: Get(r, q) ==
              if CaptureTarget(board, position, piece, q) then Some(Capture)
              else if ForwardTarget(board, position, piece, q) then Some(Move)
              else None
  {
    CapturePasses(board, position, piece, ForwardPass(board, position, piece))
  }

  // ---------------------------------------------------------------------
  // Properties of get_pawn_moves

  /** Every `Move` entry is an empty square and every `Capture` entry holds a
      piece of the other side. */
  lemma PawnMovesSound(board: Board<Color<Piece>>, position: BoardPosition, piece: Color<Piece>, q: BoardPosition)
    requires PawnWalkDefined(board, position, piece)
    ensures Get(GetPawnMoves(board, position, piece), q) == Some(Move) ==> IsEmpty(board, q)
    ensures Get(GetPawnMoves(board, position, piece), q) == Some(Capture) ==> EnemyAt(board, q, SideOf(piece))
  {
    var moves := GetPawnMoves(board, position, piece);
    if CaptureTarget(board, position, piece, q) {
      assert Get(moves, q) == Some(Capture);
      if OffsetOf(position, CaptureVectors(piece), q) && Marks(Diagonal, board, q, SideOf(piece)) {
        assert EnemyAt(board, q, SideOf(piece));
      } else {
        assert Marks(EnPassant, board, q, SideOf(piece));
      }
    } else if ForwardTarget(board, position, piece, q) {
      assert Get(moves, q) == Some(Move);
      var range := WalkRange(piece);
      var vectors := BaseVectors(piece);
      var i :| 0 <= i < |vectors| && ForwardReach(board, position, vectors[i], range.start, range.end, q);
      var k :| range.start <= k < range.end && Step(position, vectors[i], k) == Ok(q) && IsEmpty(board, q)
               && ClearBetween(board, position, vectors[i], range.start, k);
    } else {
      assert Get(moves, q) == None;
    }
  }

  /** With the range `1..hi` of a pawn, the forward walk reaches at most the
      squares of multipliers 1 and 2, the second only past an empty first. */
  lemma ForwardReachShortRange(board: Board<Color<Piece>>, position: BoardPosition, v: Vector, hi: int, q: BoardPosition)
    requires SmallVector(v) && 1 <= hi <= 3
    requires ForwardReach(board, position, v, 1, hi, q)
    ensures || Step(position, v, 1) == Ok(q)
            || (hi == 3 && Step(position, v, 2) == Ok(q) && Step(position, v, 1).Ok? && IsEmpty(board, Step(position, v, 1).value))
  {
  }

  /** A pawn's forward targets come from its single forward direction, whose
      range ends at 3 on the first move and at 2 otherwise. */
  lemma PawnForwardTarget(board: Board<Color<Piece>>, position: BoardPosition, piece: Color<Piece>, q: BoardPosition)
    requires piece.inner.Pawn? && ForwardTarget(board, position, piece, q)
    ensures ForwardReach(board, position, BaseVectors(piece)[0], 1, WalkRange(piece).end, q)
    ensures WalkRange(piece).end == if piece.inner.state == FirstMove then 3 else 2
  {
  }

  /** A pawn's `Move` entries are its forward targets. */
  lemma PawnMoveEntryIsForward(board: Board<Color<Piece>>, position: BoardPosition, piece: Color<Piece>, q: BoardPosition)
    requires piece.inner.Pawn? && PawnWalkDefined(board, position, piece)
    requires Get(GetPawnMoves(board, position, piece), q) == Some(Move)
    ensures ForwardReach(board, position, BaseVectors(piece)[0], 1, WalkRange(piece).end, q)
    ensures WalkRange(piece).end == if piece.inner.state == FirstMove then 3 else 2
  {
    assert ForwardTarget(board, position, piece, q);
    PawnForwardTarget(board, position, piece, q);
  }

  /** A pawn's forward entries are the square one step ahead and, only on its
      first move, the square two steps ahead past an empty first square. */
  lemma ForwardEntriesBounded(board: Board<Color<Piece>>, position: BoardPosition, piece: Color<Piece>, q: BoardPosition)
    requires piece.inner.Pawn? && PawnWalkDefined(board, position, piece)
    requires Get(GetPawnMoves(board, position, piece), q) == Some(Move)
    ensures var v := BaseVectors(piece)[0];
            || Step(position, v, 1) == Ok(q)
            || (piece.inner.state == FirstMove && Step(position, v, 2) == Ok(q))
  {
    PawnMoveEntryIsForward(board, position, piece, q);
    ForwardReachShortRange(board, position, BaseVectors(piece)[0], WalkRange(piece).end, q);
  }

  /** The walk stops at the first occupied square, friend or foe: a pawn
      whose square ahead is occupied gets no `Move` entry at all. */
  lemma BlockedPawnHasNoForwardMoves(board: Board<Color<Piece>>, position: BoardPosition, piece: Color<Piece>, q: BoardPosition)
    requires piece.inner.Pawn? && PawnWalkDefined(board, position, piece)
    requires Step(position, BaseVectors(piece)[0], 1).Ok? && !IsEmpty(board, Step(position, BaseVectors(piece)[0], 1).value)
    ensures Get(GetPawnMoves(board, position, piece), q) != Some(Move)
  {
    if Get(GetPawnMoves(board, position, piece), q) == Some(Move) {
      PawnMoveEntryIsForward(board, position, piece, q);
      assert false;
    }
  }

  /** Different vectors from one square lead to different squares. */
  lemma AddInjective(p: BoardPosition, a: Vector, b: Vector)
    requires Add(p, a).Ok? && Add(p, a) == Add(p, b)
    ensures a == b
  {
  }

  /** A Black pawn captures towards (1, 1), as written, ... */
  lemma BlackCapturesTowardsOneOne(board: Board<Color<Piece>>, position: BoardPosition, s: PawnState, q: BoardPosition)
    requires PawnWalkDefined(board, position, Color.Black(Pawn(s)))
    requires Add(position, (1, 1)) == Ok(q) && EnemyAt(board, q, Turn.Black)
    ensures Get(GetPawnMoves(board, position, Color.Black(Pawn(s))), q) == Some(Capture)
  {
    assert OffsetOf(position, CaptureVectors(Color.Black(Pawn(s))), q) by {
      assert Add(position, CaptureVectors(Color.Black(Pawn(s)))[1]) == Ok(q);
    }
  }

  /** ... and never towards (1, -1): a piece there is not marked at all. */
  lemma BlackIgnoresOneMinusOne(board: Board<Color<Piece>>, position: BoardPosition, s: PawnState, q: BoardPosition)
    requires PawnWalkDefined(board, position, Color.Black(Pawn(s)))
    requires Add(position, (1, -1)) == Ok(q) && !IsEmpty(board, q)
    ensures Get(GetPawnMoves(board, position, Color.Black(Pawn(s))), q) == None
  {
    var piece := Color.Black(Pawn(s));
    forall i | 0 <= i < |CaptureVectors(piece)| && Add(position, CaptureVectors(piece)[i]) == Ok(q)
      ensures false
    {
      AddInjective(position, (1, -1), CaptureVectors(piece)[i]);
    }
    forall i | 0 <= i < |EnPassantVectors| && Add(position, EnPassantVectors[i]) == Ok(q)
      ensures false
    {
      AddInjective(position, (1, -1), EnPassantVectors[i]);
    }
  }

  /** En passant marks the neighbouring square that holds the enemy pawn
      itself as the capture, not the square behind it. */
  lemma EnPassantMarksNeighbour(board: Board<Color<Piece>>, position: BoardPosition, piece: Color<Piece>, d: Vector, q: BoardPosition)
    requires PawnWalkDefined(board, position, piece)
    requires d in EnPassantVectors && Add(position, d) == Ok(q)
    requires EnemyAt(board, q, SideOf(piece)) && Get(board, q).value.inner == Pawn(PosibleEnPassant)
    ensures Get(GetPawnMoves(board, position, piece), q) == Some(Capture)
  {
    assert OffsetOf(position, EnPassantVectors, q) by {
      var i :| 0 <= i < |EnPassantVectors| && EnPassantVectors[i] == d;
    }
  }
}
