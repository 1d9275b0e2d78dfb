/** The move-vector evaluator.

    `evaluate_vector` and `vector_multiplication` are called by
    src/board/check.rs; their bodies are defined elsewhere in the crate. The
    definition below is the ray walk their callers rely on, stated as the
    assumed contract of `evaluate_vector`: for each multiplier of the range in
    order, the square `origin + multiplier * vector` ends the walk if it is off
    the board or holds a piece of the walking side, is recorded as a `Move`
    if it is empty, and is recorded as a `Capture` that ends the walk if it
    holds an opposing piece. The same rule applies to every multiplier,
    including the multiplier 0 that the king test of `is_in_check` passes.
    The walk is the shape of the forward loop of src/piece/pawn_moves.rs.
 */
module Rays {
  import opened Outcomes
  import opened Positions
  import opened Pieces
  import opened Boards

  type Ray = seq<(BoardPosition, MoveType)>

  /** `vector_multiplication`: the vector scaled by a multiplier, written as
      repeated addition (see `ScaleIsProduct`). */
  function Scale(v: Vector, k: int): (w: Vector)
    requires SmallVector(v) && 0 <= k < 8
    ensures -2 * k <= w.0 <= 2 * k && -2 * k <= w.1 <= 2 * k
    ensures (v.0 > 0 ==> w.0 >= k) && (v.0 < 0 ==> w.0 <= -k) && (v.0 == 0 ==> w.0 == 0)
    ensures (v.1 > 0 ==> w.1 >= k) && (v.1 < 0 ==> w.1 <= -k) && (v.1 == 0 ==> w.1 == 0)
  {
    if k == 0 then (0, 0)
    else
      var w := Scale(v, k - 1);
      (w.0 + v.0, w.1 + v.1)
  }

  /** Repeated addition is multiplication. */
  lemma {:induction false} ScaleIsProduct(v: Vector, k: int)
    requires SmallVector(v) && 0 <= k < 8
    ensures Scale(v, k) == (v.0 * k, v.1 * k)
  {
    if k > 0 {
      ScaleIsProduct(v, k - 1);
      assert v.0 * k == v.0 * (k - 1) + v.0 && v.1 * k == v.1 * (k - 1) + v.1;
    }
  }

  predicate AllSmall(vectors: seq<Vector>) {
    forall i :: 0 <= i < |vectors| ==> SmallVector(vectors[i])
  }

  /** The square reached by `k` repetitions of `v` from `origin`. */
  function Step(origin: BoardPosition, v: Vector, k: int): Result<BoardPosition>
    requires SmallVector(v) && 0 <= k < 8
  {
    Add(origin, Scale(v, k))
  }

  predicate IsEmpty(board: Board<Color<Piece>>, q: BoardPosition) {
    Get(board, q).None?
  }

  /** `q` holds a piece of the side opposing `player`. */
  predicate EnemyAt(board: Board<Color<Piece>>, q: BoardPosition, player: Turn) {
    Get(board, q).Some? && SideOf(Get(board, q).value) != player
  }

  /** `q` holds a piece of `player`'s own side. */
  predicate OwnAt(board: Board<Color<Piece>>, q: BoardPosition, player: Turn) {
    Get(board, q).Some? && SideOf(Get(board, q).value) == player
  }

  /** The walk cannot continue past multiplier `k`: off the board or an own piece. */
  predicate Blocked(board: Board<Color<Piece>>, origin: BoardPosition, v: Vector, k: int, player: Turn)
    requires SmallVector(v) && 0 <= k < 8
  {
    Step(origin, v, k).Err? || OwnAt(board, Step(origin, v, k).value, player)
  }

  /** Every multiplier in `lo..k` reaches an empty square on the board. */
  predicate ClearBetween(board: Board<Color<Piece>>, origin: BoardPosition, v: Vector, lo: int, k: int)
    requires SmallVector(v) && 0 <= lo && k <= 8
  {
    forall j :: lo <= j < k ==> Step(origin, v, j).Ok? && IsEmpty(board, Step(origin, v, j).value)
  }

  /** The squares a walk visits, one per multiplier of `lo..hi`, in order. */
  function Path(origin: BoardPosition, v: Vector, lo: int, hi: int): (p: seq<Result<BoardPosition>>)
    requires SmallVector(v) && 0 <= lo && hi <= 8
    ensures |p| == if lo < hi then hi - lo else 0
    ensures forall i :: 0 <= i < |p| ==> p[i] == Step(origin, v, lo + i)
  {
    if lo < hi then seq(hi - lo, i requires 0 <= i < hi - lo => Step(origin, v, lo + i)) else []
  }

  /** The walk over an explicit path: empty squares are moves, the first
      occupied square ends the walk (as a capture if the piece is an enemy's),
      and leaving the board ends it too. */
  function Walk(board: Board<Color<Piece>>, path: seq<Result<BoardPosition>>, player: Turn): (r: Ray)
    ensures |r| <= |path|
  {
    if |path| == 0 then []
    else match path[0]
      case Err(_) => []
      case Ok(q) =>
        if IsEmpty(board, q) then [(q, Move)] + Walk(board, path[1..], player)
        else if OwnAt(board, q, player) then []
        else [(q, Capture)]
  }

  /** `evaluate_vector(board, v, lo..hi, player, origin)`: the walk along the
      multipliers of `lo..hi`. Entry i is the square at multiplier `lo + i`;
      moves are empty squares, a capture is an enemy piece and comes last;
      a walk that stops early without a capture met the board's edge or an
      own piece. `RayEndsInCapture` characterizes the capture. */
  function EvaluateVector(board: Board<Color<Piece>>, v: Vector, lo: int, hi: int, player: Turn, origin: BoardPosition): (r: Ray)
    requires SmallVector(v) && 0 <= lo && hi <= 8
    ensures |r| <= if lo < hi then hi - lo else 0
    ensures FollowsPath(r, Path(origin, v, lo, hi))
    ensures KindsMatchBoard(r, board, player)
    ensures var path := Path(origin, v, lo, hi);
            |r| < |path| && (|r| == 0 || r[|r| - 1].1 == Move) ==>
              path[|r|].Err? || OwnAt(board, path[|r|].value, player)
  {
    var path := Path(origin, v, lo, hi);
    WalkVisitsInOrder(board, path, player);
    WalkEntryKinds(board, path, player);
    WalkStopsOnlyWhenBlocked(board, path, player);
    Walk(board, path, player)
  }

  /** Entry i of a walk is the square at position i of the path. */
  predicate FollowsPath(r: Ray, path: seq<Result<BoardPosition>>) {
    |r| <= |path| && forall i :: 0 <= i < |r| ==> path[i] == Ok(r[i].0)
  }

  /** Every entry is a move to an empty square or a capture of an enemy piece,
      and only the last entry can be a capture. */
  predicate KindsMatchBoard(r: Ray, board: Board<Color<Piece>>, player: Turn) {
    && (forall i :: 0 <= i < |r| ==> (r[i].1 == Move <==> IsEmpty(board, r[i].0)))
    && (forall i :: 0 <= i < |r| ==> (r[i].1 == Capture <==> EnemyAt(board, r[i].0, player)))
    && (forall i :: 0 <= i < |r| - 1 ==> r[i].1 == Move)
  }

  lemma {:induction false} WalkVisitsInOrder(board: Board<Color<Piece>>, path: seq<Result<BoardPosition>>, player: Turn)
    ensures FollowsPath(Walk(board, path, player), path)
  {
    if |path| > 0 && path[0].Ok? && IsEmpty(board, path[0].value) {
      var tail := path[1..];
      WalkVisitsInOrder(board, tail, player);
      var r := Walk(board, path, player);
      var rest := Walk(board, tail, player);
      assert r == [(path[0].value, Move)] + rest;
      forall i | 0 <= i < |r|
        ensures path[i] == Ok(r[i].0)
      {
        if i > 0 {
          assert r[i] == rest[i - 1] && path[i] == tail[i - 1];
        }
      }
    }
  }

  lemma {:induction false} WalkEntryKinds(board: Board<Color<Piece>>, path: seq<Result<BoardPosition>>, player: Turn)
    ensures KindsMatchBoard(Walk(board, path, player), board, player)
  {
    if |path| > 0 && path[0].Ok? && IsEmpty(board, path[0].value) {
      var tail := path[1..];
      WalkEntryKinds(board, tail, player);
      var r := Walk(board, path, player);
      var rest := Walk(board, tail, player);
      assert r == [(path[0].value, Move)] + rest;
      assert forall i :: 1 <= i < |r| ==> r[i] == rest[i - 1];
    }
  }

  /** A walk that is shorter than its path and does not end in a capture
      stopped at the board's edge or at an own piece. */
  lemma {:induction false} WalkStopsOnlyWhenBlocked(board: Board<Color<Piece>>, path: seq<Result<BoardPosition>>, player: Turn)
    ensures var r := Walk(board, path, player);
            |r| < |path| && (|r| == 0 || r[|r| - 1].1 == Move) ==>
              path[|r|].Err? || OwnAt(board, path[|r|].value, player)
  {
    if |path| > 0 && path[0].Ok? && IsEmpty(board, path[0].value) {
      var tail := path[1..];
      WalkStopsOnlyWhenBlocked(board, tail, player);
      var r := Walk(board, path, player);
      var rest := Walk(board, tail, player);
      assert r == [(path[0].value, Move)] + rest;
      assert |rest| > 0 ==> r[|r| - 1] == rest[|rest| - 1];
      assert |rest| < |tail| ==> path[|r|] == tail[|rest|];
    }
  }

  /** Every path position before `k` is an empty square on the board. */
  predicate ClearBefore(board: Board<Color<Piece>>, path: seq<Result<BoardPosition>>, k: int)
    requires k <= |path|
  {
    forall j :: 0 <= j < k ==> path[j].Ok? && IsEmpty(board, path[j].value)
  }

  /** The last entry of a walk, when it is a capture, is the path square
      after a clear prefix, and it holds an enemy piece. */
  lemma WalkCaptureIsClear(board: Board<Color<Piece>>, path: seq<Result<BoardPosition>>, player: Turn)
    ensures var r := Walk(board, path, player);
            |r| > 0 && r[|r| - 1].1 == Capture ==>
              && path[|r| - 1] == Ok(r[|r| - 1].0)
              && EnemyAt(board, r[|r| - 1].0, player)
              && ClearBefore(board, path, |r| - 1)
  {
    var r := Walk(board, path, player);
    WalkVisitsInOrder(board, path, player);
    WalkEntryKinds(board, path, player);
    if |r| > 0 && r[|r| - 1].1 == Capture {
      forall j | 0 <= j < |r| - 1
        ensures path[j].Ok? && IsEmpty(board, path[j].value)
      {
        assert path[j] == Ok(r[j].0) && r[j].1 == Move;
      }
    }
  }

  /** An enemy piece after a clear prefix of the path ends the walk, as its
      capture, at exactly that position. */
  lemma {:induction false} WalkReachesCapture(board: Board<Color<Piece>>, path: seq<Result<BoardPosition>>, player: Turn, k: int)
    requires 0 <= k < |path| && path[k].Ok? && EnemyAt(board, path[k].value, player) && ClearBefore(board, path, k)
    ensures var r := Walk(board, path, player);
            |r| == k + 1 && r[k] == (path[k].value, Capture)
  {
    if k > 0 {
      var tail := path[1..];
      assert ClearBefore(board, tail, k - 1) by {
        forall j | 0 <= j < k - 1
          ensures tail[j].Ok? && IsEmpty(board, tail[j].value)
        {
          assert tail[j] == path[j + 1];
        }
      }
      assert tail[k - 1] == path[k];
      WalkReachesCapture(board, tail, player, k - 1);
      assert Walk(board, path, player) == [(path[0].value, Move)] + Walk(board, tail, player);
    }
  }

  /** The walk ends in a capture of `q` exactly when `q` is on the path,
      holds an enemy piece, and every earlier path square is empty. */
  lemma WalkEndsInCapture(board: Board<Color<Piece>>, path: seq<Result<BoardPosition>>, player: Turn, q: BoardPosition)
    ensures var r := Walk(board, path, player);
            (|r| > 0 && r[|r| - 1] == (q, Capture))
            <==> exists k :: 0 <= k < |path| && path[k] == Ok(q) && EnemyAt(board, q, player) && ClearBefore(board, path, k)
  {
    var r := Walk(board, path, player);
    WalkCaptureIsClear(board, path, player);
    forall k | 0 <= k < |path| && path[k] == Ok(q) && EnemyAt(board, q, player) && ClearBefore(board, path, k)
      ensures |r| > 0 && r[|r| - 1] == (q, Capture)
    {
      WalkReachesCapture(board, path, player, k);
    }
  }

  /** Position `i` of the path is the square of multiplier `k = lo + i`. */
  lemma PathAt(origin: BoardPosition, v: Vector, lo: int, hi: int, i: int, k: int)
    requires SmallVector(v) && 0 <= lo && hi <= 8 && 0 <= i < hi - lo && k == lo + i
    ensures Path(origin, v, lo, hi)[i] == Step(origin, v, k)
  {
  }

  /** A clear path prefix is a clear run of multipliers. */
  lemma PathClearBetween(board: Board<Color<Piece>>, origin: BoardPosition, v: Vector, lo: int, hi: int, k: int)
    requires SmallVector(v) && 0 <= lo <= k <= hi <= 8
    ensures ClearBefore(board, Path(origin, v, lo, hi), k - lo) <==> ClearBetween(board, origin, v, lo, k)
  {
    var path := Path(origin, v, lo, hi);
    if ClearBefore(board, path, k - lo) {
      forall j | lo <= j < k
        ensures Step(origin, v, j).Ok? && IsEmpty(board, Step(origin, v, j).value)
      {
        assert path[j - lo] == Step(origin, v, j);
      }
    }
    if ClearBetween(board, origin, v, lo, k) {
      forall j | 0 <= j < k - lo
        ensures path[j].Ok? && IsEmpty(board, path[j].value)
      {
        assert path[j] == Step(origin, v, lo + j);
      }
    }
  }

  /** A walk that ends in a capture reached it at some multiplier `k` of
      `lo..hi`, past a run of empty squares. */
  lemma RayCaptureIsClear(board: Board<Color<Piece>>, v: Vector, lo: int, hi: int, player: Turn, origin: BoardPosition)
    returns (k: int)
    requires SmallVector(v) && 0 <= lo && hi <= 8
    requires var r := EvaluateVector(board, v, lo, hi, player, origin); |r| > 0 && r[|r| - 1].1 == Capture
    ensures var r := EvaluateVector(board, v, lo, hi, player, origin);
            && k == lo + |r| - 1 && lo <= k < hi
            && Step(origin, v, k) == Ok(r[|r| - 1].0)
            && EnemyAt(board, r[|r| - 1].0, player)
            && ClearBetween(board, origin, v, lo, k)
  {
    k := PathCaptureIsClear(board, v, lo, hi, player, origin, Path(origin, v, lo, hi));
  }

  lemma PathCaptureIsClear(board: Board<Color<Piece>>, v: Vector, lo: int, hi: int, player: Turn, origin: BoardPosition, path: seq<Result<BoardPosition>>)
    returns (k: int)
    requires SmallVector(v) && 0 <= lo && hi <= 8 && path == Path(origin, v, lo, hi)
    requires var r := Walk(board, path, player); |r| > 0 && r[|r| - 1].1 == Capture
    ensures var r := Walk(board, path, player);
            && k == lo + |r| - 1 && lo <= k < hi
            && Step(origin, v, k) == Ok(r[|r| - 1].0)
            && EnemyAt(board, r[|r| - 1].0, player)
            && ClearBetween(board, origin, v, lo, k)
  {
    var r := Walk(board, path, player);
    WalkCaptureIsClear(board, path, player);
    var i := |r| - 1;
    k := lo + i;
    assert path[i] == Ok(r[i].0);
    PathAt(origin, v, lo, hi, i, k);
    PathClearBetween(board, origin, v, lo, hi, k);
  }

  /** An enemy reached at multiplier `k` after a run of empty squares ends the
      walk as its capture. */
  lemma RayReachesCapture(board: Board<Color<Piece>>, v: Vector, lo: int, hi: int, player: Turn, origin: BoardPosition, k: int)
    requires SmallVector(v) && 0 <= lo && hi <= 8
    requires lo <= k < hi && Step(origin, v, k).Ok? && EnemyAt(board, Step(origin, v, k).value, player)
    requires ClearBetween(board, origin, v, lo, k)
    ensures var r := EvaluateVector(board, v, lo, hi, player, origin);
            |r| == k - lo + 1 && r[k - lo] == (Step(origin, v, k).value, Capture)
  {
    var path := Path(origin, v, lo, hi);
    PathClearBetween(board, origin, v, lo, hi, k);
    assert path[k - lo] == Step(origin, v, k);
    WalkReachesCapture(board, path, player, k - lo);
  }

  /** The contract of `evaluate_vector`: the walk ends in a capture of `q`
      exactly when some multiplier `k` of `lo..hi` reaches `q`, `q` holds an
      enemy, and every multiplier of `lo..k` reaches an empty square. */
  lemma RayEndsInCapture(board: Board<Color<Piece>>, v: Vector, lo: int, hi: int, player: Turn, origin: BoardPosition, q: BoardPosition)
    requires SmallVector(v) && 0 <= lo && hi <= 8
    ensures var r := EvaluateVector(board, v, lo, hi, player, origin);
            (|r| > 0 && r[|r| - 1] == (q, Capture))
            <==> exists k :: lo <= k < hi && Step(origin, v, k) == Ok(q) && EnemyAt(board, q, player) && ClearBetween(board, origin, v, lo, k)
  {
    var r := EvaluateVector(board, v, lo, hi, player, origin);
    if |r| > 0 && r[|r| - 1] == (q, Capture) {
      var k := RayCaptureIsClear(board, v, lo, hi, player, origin);
    }
    forall k | lo <= k < hi && Step(origin, v, k) == Ok(q) && EnemyAt(board, q, player) && ClearBetween(board, origin, v, lo, k)
      ensures |r| > 0 && r[|r| - 1] == (q, Capture)
    {
      RayReachesCapture(board, v, lo, hi, player, origin, k);
    }
  }

  /** Multiplier 0 is the origin itself. */
  lemma StepZero(origin: BoardPosition, v: Vector)
    requires SmallVector(v)
    ensures Step(origin, v, 0) == Ok(origin)
  {
    AddZero(origin);
  }

  /** The multipliers used by the move tables start at 1, so a walk with a
      non-zero vector never comes back to its origin. */
  lemma StepLeavesOrigin(origin: BoardPosition, v: Vector, k: int)
    requires SmallVector(v) && v != (0, 0) && 1 <= k < 8
    ensures Step(origin, v, k) != Ok(origin)
  {
  }
}
