/** The attack detector of src/board/check.rs: `is_in_check`, `check_vector`
    and `check_by_pawn`.

    `is_in_check(board, square, player)` asks whether `square` is attacked by
    the side opposing `player`. Each test is modelled as the source runs it
    (`CheckByPawn`, `AnyRayHits`, `IsInCheck`) and is paired with a
    declarative statement of what it detects (`PawnAt`, `AttackAlong`,
    `Attacked`); `IsInCheckIffAttacked` connects the two.
 */
module Check {
  import opened Outcomes
  import opened Positions
  import opened Pieces
  import opened Shorthands
  import opened Boards
  import opened Rays

  /** The pieces a ray must end on to count as an attack: any king
      (`Piece::King { .. }`), or one of a list of pieces compared structurally. */
  datatype Attackers = AnyKing | OneOf(pieces: seq<Piece>)

  predicate IsAttacker(t: Attackers, p: Piece) {
    match t
    case AnyKing => p.King?
    case OneOf(ps) => p in ps
  }

  /** The square `v` away from `king` is on the board and holds exactly `piece`. */
  predicate PawnAt(board: Board<Color<Piece>>, king: BoardPosition, v: Vector, piece: Color<Piece>) {
    Add(king, v).Ok? && Get(board, Add(king, v).value) == Some(piece)
  }

  /** `check_by_pawn`: an off-board square contributes `false`, never an error. */
  function CheckByPawn(board: Board<Color<Piece>>, king: BoardPosition, vectors: seq<Vector>, piece: Color<Piece>): (b: bool)
    ensures b <==> exists i :: 0 <= i < |vectors| && PawnAt(board, king, vectors[i], piece)
  {
    if |vectors| == 0 then false
    else
      var found := match Add(king, vectors[0])
        case Err(_) => false
        case Ok(q) => Get(board, q) == Some(piece);
      var rest := CheckByPawn(board, king, vectors[1..], piece);
      assert rest <==> exists i :: 1 <= i < |vectors| && PawnAt(board, king, vectors[i], piece) by {
        forall i | 1 <= i < |vectors|
          ensures vectors[i] == vectors[1..][i - 1]
        {
        }
      }
      found || rest
  }

  /** The walk from `origin` along `v` ends with a capture of a piece `targets`
      accepts. `is_in_check` unwraps the captured square; a capture always
      holds a piece (`WalkEntryKinds`), so the empty case never arises. */
  predicate RayHits(board: Board<Color<Piece>>, v: Vector, lo: int, hi: int, player: Turn, origin: BoardPosition, targets: Attackers)
    requires SmallVector(v) && 0 <= lo && hi <= 8
  {
    var r := EvaluateVector(board, v, lo, hi, player, origin);
    && |r| > 0
    && r[|r| - 1].1 == Capture
    && match Get(board, r[|r| - 1].0)
       case Some(c) => IsAttacker(targets, c.inner)
       case None => false
  }

  /** Declarative partner of `RayHits`: some multiplier of `lo..hi` reaches an
      enemy piece that `targets` accepts, across squares that are all empty. */
  predicate AttackAlong(board: Board<Color<Piece>>, v: Vector, lo: int, hi: int, player: Turn, origin: BoardPosition, targets: Attackers)
    requires SmallVector(v) && 0 <= lo && hi <= 8
  {
    exists k :: lo <= k < hi && AttackerAt(board, v, k, player, origin, targets) && ClearBetween(board, origin, v, lo, k)
  }

  /** Multiplier `k` of `v` reaches an enemy piece that `targets` accepts. */
  predicate AttackerAt(board: Board<Color<Piece>>, v: Vector, k: int, player: Turn, origin: BoardPosition, targets: Attackers)
    requires SmallVector(v) && 0 <= k < 8
  {
    && Step(origin, v, k).Ok?
    && EnemyAt(board, Step(origin, v, k).value, player)
    && IsAttacker(targets, Get(board, Step(origin, v, k).value).value.inner)
  }

  /** A firing ray test names the multiplier of the attack it found. */
  lemma RayHitsIsAttack(board: Board<Color<Piece>>, v: Vector, lo: int, hi: int, player: Turn, origin: BoardPosition, targets: Attackers)
    returns (k: int)
    requires SmallVector(v) && 0 <= lo && hi <= 8
    requires RayHits(board, v, lo, hi, player, origin, targets)
    ensures lo <= k < hi && AttackerAt(board, v, k, player, origin, targets) && ClearBetween(board, origin, v, lo, k)
  {
    k := RayCaptureIsClear(board, v, lo, hi, player, origin);
  }

  /** An attack across empty squares makes the ray test fire. */
  lemma AttackIsRayHit(board: Board<Color<Piece>>, v: Vector, lo: int, hi: int, player: Turn, origin: BoardPosition, targets: Attackers, k: int)
    requires SmallVector(v) && 0 <= lo && hi <= 8
    requires lo <= k < hi && AttackerAt(board, v, k, player, origin, targets) && ClearBetween(board, origin, v, lo, k)
    ensures RayHits(board, v, lo, hi, player, origin, targets)
  {
    RayReachesCapture(board, v, lo, hi, player, origin, k);
  }

  /** The ray test fires exactly when the declarative attack exists. */
  lemma RayHitsIffAttack(board: Board<Color<Piece>>, v: Vector, lo: int, hi: int, player: Turn, origin: BoardPosition, targets: Attackers)
    requires SmallVector(v) && 0 <= lo && hi <= 8
    ensures RayHits(board, v, lo, hi, player, origin, targets) <==> AttackAlong(board, v, lo, hi, player, origin, targets)
  {
    if RayHits(board, v, lo, hi, player, origin, targets) {
      var k := RayHitsIsAttack(board, v, lo, hi, player, origin, targets);
    }
    if AttackAlong(board, v, lo, hi, player, origin, targets) {
      var k :| lo <= k < hi && AttackerAt(board, v, k, player, origin, targets) && ClearBetween(board, origin, v, lo, k);
      AttackIsRayHit(board, v, lo, hi, player, origin, targets, k);
    }
  }

  /** The `any` over directions shared by the king test and `check_vector`. */
  function AnyRayHits(board: Board<Color<Piece>>, position: BoardPosition, vectors: seq<Vector>, lo: int, hi: int, targets: Attackers, player: Turn): (b: bool)
    requires AllSmall(vectors) && 0 <= lo && hi <= 8
    ensures b <==> exists i :: 0 <= i < |vectors| && RayHits(board, vectors[i], lo, hi, player, position, targets)
  {
    if |vectors| == 0 then false
    else
      var rest := AnyRayHits(board, position, vectors[1..], lo, hi, targets, player);
      assert rest <==> exists i :: 1 <= i < |vectors| && RayHits(board, vectors[i], lo, hi, player, position, targets) by {
        forall i | 1 <= i < |vectors|
          ensures vectors[i] == vectors[1..][i - 1]
        {
        }
      }
      RayHits(board, vectors[0], lo, hi, player, position, targets) || rest
  }

  /** `check_vector`: every direction is walked with the Infinity step range. */
  function CheckVector(board: Board<Color<Piece>>, position: BoardPosition, moveSet: seq<Vector>, pieces: seq<Piece>, player: Turn): (b: bool)
    requires AllSmall(moveSet)
    ensures b <==> exists i :: 0 <= i < |moveSet| && AttackAlong(board, moveSet[i], 1, 8, player, position, OneOf(pieces))
  {
    var range := ToRange(Infinity);
    var b := AnyRayHits(board, position, moveSet, range.start, range.end, OneOf(pieces), player);
    forall i | 0 <= i < |moveSet|
      ensures RayHits(board, moveSet[i], 1, 8, player, position, OneOf(pieces))
          <==> AttackAlong(board, moveSet[i], 1, 8, player, position, OneOf(pieces))
    {
      RayHitsIffAttack(board, moveSet[i], 1, 8, player, position, OneOf(pieces));
    }
    b
  }

  /** The pawn squares and the exact pawn value `is_in_check` looks for: the
      two diagonals one step along the player's own pawn direction, where an
      enemy pawn would stand if it captured towards the target. */
  function PawnThreat(player: Turn): (t: (seq<Vector>, Color<Piece>))
    ensures var forward := BaseVectors(if player.White? then WHITE_PAWN else BLACK_PAWN)[0].1;
            t.0 == [(-1, forward), (1, forward)]
    ensures t.1.inner == Pawn(Default) && SideOf(t.1) == Opponent(player)
  {
    match player
    case White => ([(-1, 1), (1, 1)], BLACK_PAWN)
    case Black => ([(-1, -1), (1, -1)], WHITE_PAWN)
  }

  /** `is_in_check(board, target, player)`. */
  function IsInCheck(board: Board<Color<Piece>>, target: BoardPosition, player: Turn): bool
  {
    var (pawnVectors, pawn) := PawnThreat(player);
    assert AllSmall(KING_MOVES) && AllSmall(ROOK_MOVES) && AllSmall(BISHOP_MOVES) && AllSmall(KNIGTH_MOVES);
    || CheckByPawn(board, target, pawnVectors, pawn)
    || AnyRayHits(board, target, BaseVectors(WHITE_KING), 0, 2, AnyKing, player)
    || CheckVector(board, target, BaseVectors(WHITE_ROOK), [Rook, Queen], player)
    || CheckVector(board, target, BaseVectors(WHITE_BISHOP), [Bishop, Queen], player)
    || CheckVector(board, target, BaseVectors(WHITE_KNIGHT), [Knight], player)
  }

  /** The reference definition of an attacked square: a Default-state enemy
      pawn on one of the two pawn squares, or an enemy king, rook or queen,
      bishop or queen, or knight reached along one of its directions across
      empty squares. The king directions use multipliers 0 and 1, the others
      1 to 7. */
  predicate Attacked(board: Board<Color<Piece>>, target: BoardPosition, player: Turn) {
    var (pawnVectors, pawn) := PawnThreat(player);
    || (exists i :: 0 <= i < |pawnVectors| && PawnAt(board, target, pawnVectors[i], pawn))
    || (exists i :: 0 <= i < |KING_MOVES| && AttackAlong(board, KING_MOVES[i], 0, 2, player, target, AnyKing))
    || (exists i :: 0 <= i < |ROOK_MOVES| && AttackAlong(board, ROOK_MOVES[i], 1, 8, player, target, OneOf([Rook, Queen])))
    || (exists i :: 0 <= i < |BISHOP_MOVES| && AttackAlong(board, BISHOP_MOVES[i], 1, 8, player, target, OneOf([Bishop, Queen])))
    || (exists i :: 0 <= i < |KNIGTH_MOVES| && AttackAlong(board, KNIGTH_MOVES[i], 1, 8, player, target, OneOf([Knight])))
  }

  /** `is_in_check` answers exactly the reference question. */
  lemma IsInCheckIffAttacked(board: Board<Color<Piece>>, target: BoardPosition, player: Turn)
    ensures IsInCheck(board, target, player) <==> Attacked(board, target, player)
  {
    TablesMatchBaseVectors(Default);
    forall i | 0 <= i < |KING_MOVES|
      ensures RayHits(board, KING_MOVES[i], 0, 2, player, target, AnyKing)
          <==> AttackAlong(board, KING_MOVES[i], 0, 2, player, target, AnyKing)
    {
      RayHitsIffAttack(board, KING_MOVES[i], 0, 2, player, target, AnyKing);
    }
  }

  /** The pawn test compares squares with the Default-state constants, so an
      enemy pawn that is still on its first move, or may be taken en passant,
      is invisible to it: the test answers as if its square were empty. */
  lemma PawnTestIgnoresUnmovedPawns(board: Board<Color<Piece>>, target: BoardPosition, player: Turn, q: BoardPosition, s: PawnState)
    requires s != Default
    ensures var (pawnVectors, pawn) := PawnThreat(player);
            var enemy := if player == Turn.White then Color.Black(Pawn(s)) else Color.White(Pawn(s));
            CheckByPawn(Set(board, q, Some(enemy)), target, pawnVectors, pawn)
              == CheckByPawn(Set(board, q, None), target, pawnVectors, pawn)
  {
    var (pawnVectors, pawn) := PawnThreat(player);
    var enemy := if player == Turn.White then Color.Black(Pawn(s)) else Color.White(Pawn(s));
    forall i | 0 <= i < |pawnVectors|
      ensures PawnAt(Set(board, q, Some(enemy)), target, pawnVectors[i], pawn)
          <==> PawnAt(Set(board, q, None), target, pawnVectors[i], pawn)
    {
    }
  }

  /** A Default-state enemy pawn on one of the two pawn squares attacks. */
  lemma DefaultPawnAttacks(board: Board<Color<Piece>>, target: BoardPosition, player: Turn, i: int)
    requires 0 <= i < 2 && PawnAt(board, target, PawnThreat(player).0[i], PawnThreat(player).1)
    ensures IsInCheck(board, target, player)
  {
  }

  /** Knight offsets are walked with the Infinity range too: an enemy knight
      two knight-offsets away, behind an empty square, counts as an attack. */
  lemma KnightRepeatsOffset(board: Board<Color<Piece>>, target: BoardPosition, player: Turn, i: int)
    requires 0 <= i < |KNIGTH_MOVES|
    requires Step(target, KNIGTH_MOVES[i], 1).Ok? && IsEmpty(board, Step(target, KNIGTH_MOVES[i], 1).value)
    requires AttackerAt(board, KNIGTH_MOVES[i], 2, player, target, OneOf([Knight]))
    ensures IsInCheck(board, target, player)
  {
    var v := KNIGTH_MOVES[i];
    assert ClearBetween(board, target, v, 1, 2);
    assert AttackAlong(board, v, 1, 8, player, target, OneOf([Knight]));
    IsInCheckIffAttacked(board, target, player);
  }

  /** Multiplier 0 of every king direction is the target square itself, so
      a piece of `player`'s own side on the target stops every walk of the
      king test at once: that test can then never fire. */
  lemma OwnPieceStopsKingTest(board: Board<Color<Piece>>, target: BoardPosition, player: Turn)
    requires OwnAt(board, target, player)
    ensures !AnyRayHits(board, target, KING_MOVES, 0, 2, AnyKing, player)
  {
    forall i | 0 <= i < |KING_MOVES|
      ensures !AttackAlong(board, KING_MOVES[i], 0, 2, player, target, AnyKing)
    {
      StepZero(target, KING_MOVES[i]);
    }
    forall i | 0 <= i < |KING_MOVES|
      ensures !RayHits(board, KING_MOVES[i], 0, 2, player, target, AnyKing)
    {
      RayHitsIffAttack(board, KING_MOVES[i], 0, 2, player, target, AnyKing);
    }
  }

  /** One king direction from an empty target: the walk passes multiplier 0
      and fires exactly on an enemy king at multiplier 1. */
  lemma EmptyTargetKingDirection(board: Board<Color<Piece>>, target: BoardPosition, player: Turn, v: Vector)
    requires SmallVector(v) && IsEmpty(board, target)
    ensures RayHits(board, v, 0, 2, player, target, AnyKing) <==> AttackerAt(board, v, 1, player, target, AnyKing)
  {
    StepZero(target, v);
    RayHitsIffAttack(board, v, 0, 2, player, target, AnyKing);
    assert !AttackerAt(board, v, 0, player, target, AnyKing);
    assert ClearBetween(board, target, v, 0, 1);
  }

  /** On an empty target the king test fires exactly when an enemy king
      stands on one of the eight neighbouring squares. */
  lemma EmptyTargetKingTest(board: Board<Color<Piece>>, target: BoardPosition, player: Turn)
    requires IsEmpty(board, target)
    ensures AnyRayHits(board, target, KING_MOVES, 0, 2, AnyKing, player)
        <==> exists i :: 0 <= i < |KING_MOVES| && AttackerAt(board, KING_MOVES[i], 1, player, target, AnyKing)
  {
    EmptyTargetRays(board, target, player, KING_MOVES);
  }

  /** The king test from an empty target, over any list of directions. */
  lemma EmptyTargetRays(board: Board<Color<Piece>>, target: BoardPosition, player: Turn, vectors: seq<Vector>)
    requires AllSmall(vectors) && IsEmpty(board, target)
    ensures AnyRayHits(board, target, vectors, 0, 2, AnyKing, player)
        <==> exists i :: 0 <= i < |vectors| && AttackerAt(board, vectors[i], 1, player, target, AnyKing)
  {
    forall i | 0 <= i < |vectors|
      ensures RayHits(board, vectors[i], 0, 2, player, target, AnyKing)
          <==> AttackerAt(board, vectors[i], 1, player, target, AnyKing)
    {
      EmptyTargetKingDirection(board, target, player, vectors[i]);
    }
  }
}
