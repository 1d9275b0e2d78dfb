# viktoe-chess rules kernel in Dafny

A model of the rules kernel of the `viktoe-chess` Rust crate, with proofs about it. It has five layers, one Dafny module each (plus a shared `Outcomes` module for `Option`, `Result` and the error kinds):

- **Coordinates** (`Positions`, positions.dfy): files, ranks, the `u8` conversions and `BoardPosition::add`. `add` is checked vector addition with `u8` overflow and underflow written out.
- **Pieces** (`Pieces`, pieces.dfy; `Shorthands`, shorthands.dfy): piece kinds, base direction vectors, step counts and their multiplier ranges, the canonical piece constants and the direction tables.
- **Move generators** (`Rays`, rays.dfy; `PawnMoves`, pawn_moves.dfy; `KingMoves`, king_moves.dfy).
  - `Rays` is the ray walk that `evaluate_vector` performs: empty squares are moves, an enemy piece is a capture that ends the walk, and an own piece or the board edge ends it silently.
  - `PawnMoves` is `get_pawn_moves`: the forward walk, the diagonal captures and the en-passant marking.
  - `KingMoves` is `get_king_moves` with the two castling tests.
- **Attack detector** (`Check`, check.dfy): `is_in_check`, `check_vector` and `check_by_pawn`. It is proved equal to a declarative reference definition, `Attacked`.
- **Board and game** (`Boards`, boards.dfy; `Game`, game.dfy; `Fen`, fen.dfy).
  - `Boards` is the 64-slot board with `get`/`set`.
  - `Game` holds `ChessGame`, `get_valid_moves`, `move_piece` and the standard initial position.
  - `Fen` is `ChessGame::from_fen`: the placement scan, the turn field and the other fields of the imported game.

The crate's files come from different revisions. The model uses one representation throughout:

- a `Color<Piece>` wrapper (`White`/`Black`);
- a king's castling rights as a pair of booleans;
- a board as a sequence of 64 optional entries.

The storage index of square (file, rank) is taken to be `8 * file + rank`: the `[file][rank]` layout of `src/board.rs` flattened, and the `(i / 8, i % 8)` that `from_fen` uses. It is an assumption (see "## Left out"). That is also the order in which the FEN scan fills the board.

Every operation is a pure function. An error return is a `Result` value. Every `unwrap` the source relies on is a `requires` clause:

- `MovesDefined` / `PawnWalkDefined`: the pawn walk stays on the board; `move_piece` needs this only for a piece of the side to move (`MoveDefined`), because it refuses any other piece first;
- `!Overflows`: a FEN placement never writes past square 64.

`get_standard_valid_move` is defined elsewhere in the crate and not modelled. The king generator, `get_valid_moves` and `move_piece` take the move map it would compute as a function parameter `standard`. The body of `evaluate_vector` is defined elsewhere in the crate as well: `Rays.EvaluateVector` gives it the body its stated contract determines. That contract is the member's own `ensures`, proved from `WalkVisitsInOrder`, `WalkEntryKinds` and `WalkStopsOnlyWhenBlocked`; `RayEndsInCapture` characterizes the capture.

Deviations from the rules of chess are modelled as written and stated as lemmas:

- the Black pawn captures towards (1, 1);
- en passant marks the neighbouring square itself;
- queen-side castling goes to the B file, and Black's test skips D8 for emptiness;
- castling rights are never cleared, so a Black king that walked to D8 castles past its own square;
- knight offsets are walked as rays;
- the pawn attack test sees only Default-state pawns;
- a `/` in a FEN placement is rejected;
- the FEN king square comes from the character index.

## Model

| member | source | states |
|---|---|---|
| `Positions.FileToU8` | src/position/trait_implementation.rs:12-25 | every file maps into 0..7 |
| `Positions.FileFromU8` | src/position/trait_implementation.rs:27-43 | succeeds exactly on 0..7, is inverted by `u8::from`, and fails with OutOfBounds otherwise |
| `Positions.RankToU8` | src/position/trait_implementation.rs:53-66 | every rank maps into 0..7 |
| `Positions.RankFromU8` | src/position/trait_implementation.rs:68-84 | succeeds exactly on 0..7, is inverted by `u8::from`, and fails with OutOfBounds otherwise |
| `Positions.FileRoundTrip` | src/position/trait_implementation.rs:12-43 | converting a file to `u8` and back gives the same file |
| `Positions.RankRoundTrip` | src/position/trait_implementation.rs:53-84 | converting a rank to `u8` and back gives the same rank |
| `Positions.ToPair` | src/position/trait_implementation.rs:95-99 | both coordinates of a position are below 8 |
| `Positions.FromPair` | src/position/trait_implementation.rs:101-110 | `try_from((f, r))` succeeds exactly when f < 8 and r < 8, returns a position with those coordinates, and fails with OutOfBounds otherwise |
| `Positions.PairRoundTrip` | src/position/trait_implementation.rs:88-110 | position to pair to position is the identity; pair to position to pair is too, whenever `try_from` succeeds |
| `Positions.ToPairInjective` | src/position/trait_implementation.rs:95-99 | distinct positions have distinct coordinate pairs |
| `Positions.Add` | src/position.rs:44-64 | `add` succeeds exactly when both shifted coordinates lie in 0..7, with exactly those coordinates; it never wraps or clamps, and every failure is OutOfBounds |
| `Positions.AddZero` | src/position.rs:44-64 | adding (0, 0) returns the same position |
| `Positions.AddInverse` | src/position.rs:44-64 | after a successful `add(v)`, adding `-v` returns to the start |
| `Positions.AddCompose` | src/position.rs:44-64 | two successful additions equal one addition of the summed vector |
| `Positions.ConversionsAgree` | src/position.rs:74-87 | (A, k) is the pair (0, k) and (k, One) is the pair (k, 0), for all eight k |
| `Pieces.BaseVectors` | src/piece.rs:40-62 | every piece has one to eight non-zero direction vectors with coordinates in -2..2 |
| `Pieces.StepCountOf` | src/piece.rs:64-79 | Two exactly for a FirstMove pawn; Infinity exactly for queen, rook and bishop; One for king, knight and every other pawn |
| `Pieces.ToRange` | src/piece/trait_implementations.rs:14-22 | every multiplier range starts at 1 and ends at most at 8 |
| `Pieces.RangeContents` | src/piece/trait_implementations.rs:16-20 | One is {1}, Two is {1, 2}, Infinity is {1..7}; the ranges are nested and none contains 0 |
| `Pieces.DefaultColor` | src/piece/trait_implementations.rs:5-12 | the default colour is White around the inner default |
| `Pieces.KingAndQueenShareDirections` | src/piece.rs:44-45 | king and queen have the same eight directions, for either colour |
| `Pieces.PawnDirectionByColour` | src/piece.rs:49-56 | a pawn moves (0, 1) if White and (0, -1) if Black, whatever its state |
| `Shorthands.SlidingTablesPartitionQueen` | src/piece/shorthands.rs:41-62 | the queen table equals the king table; the rook and bishop tables are disjoint and their union is the queen table |
| `Shorthands.KnightTableIsLShaped` | src/piece/shorthands.rs:63-72 | the knight table holds eight distinct offsets, each moving one coordinate by 1 and the other by 2 |
| `Shorthands.PawnTablesOpposite` | src/piece/shorthands.rs:73-74 | the White pawn direction is the negation of the Black one |
| `Shorthands.TablesMatchBaseVectors` | src/piece/shorthands.rs:41-74 | each table equals `get_movement_base_vector` of the matching piece |
| `Shorthands.ConstantStates` | src/piece/shorthands.rs:3-39 | fresh kings have both castling rights, plain kings none, and no king is in check; fresh pawns are FirstMove, plain pawns Default |
| `Boards.Index` | src/board.rs:31-41 | every square has a storage slot below 64 |
| `Boards.IndexInjective` | src/board.rs:31-41 | two squares share a storage slot exactly when they are equal |
| `Boards.Set` | src/board.rs:37-41 | after `set(p, v)`, `get(p)` is `v` and every other square keeps its value |
| `Boards.EmptyBoard` | src/board/trait_implementation.rs:9-13 | every square of the default board is empty |
| `Boards.SideOf` | src/board.rs:178-181 | a coloured piece belongs to White exactly when it is wrapped in `White` |
| `Boards.Opponent` | src/board.rs:260-263 | the other side is never the same side |
| `Rays.ScaleIsProduct` | src/board/check.rs:66-68 | scaling a direction by repeated addition is multiplication by the multiplier |
| `Rays.EvaluateVector` | src/board/check.rs:26 | a ray walk has at most one entry per multiplier of its range; entry i is the square at multiplier lo + i; Move entries are exactly the empty squares and Capture entries exactly the enemy pieces, and only the last entry can be a capture; a walk that stops early without a capture met the board's edge or an own piece |
| `Rays.WalkVisitsInOrder` | src/piece/pawn_moves.rs:15-29 | entry i of a walk is the square at multiplier i of the range |
| `Rays.WalkEntryKinds` | src/board/check.rs:68-69 | every entry is a move to an empty square or a capture of an enemy piece, and only the last entry can be a capture |
| `Rays.WalkStopsOnlyWhenBlocked` | src/piece/pawn_moves.rs:22-27 | a walk ends early without a capture only at the board edge or at an own piece |
| `Rays.WalkCaptureIsClear` | src/board/check.rs:68-69 | a capture at the end of a walk comes after empty squares only |
| `Rays.WalkReachesCapture` | src/board/check.rs:68-69 | an enemy piece after a clear run of squares ends the walk as a capture |
| `Rays.WalkEndsInCapture` | src/board/check.rs:68-69 | the walk ends in a capture of q exactly when q holds an enemy piece on the path behind empty squares |
| `Rays.PathAt` | src/board/check.rs:26 | position i of a path is the square of multiplier `lo + i` |
| `Rays.PathClearBetween` | src/board/check.rs:68 | a clear prefix of a path is a clear run of multipliers |
| `Rays.RayCaptureIsClear` | src/board/check.rs:68-69 | a ray ending in a capture reached an enemy at some multiplier behind empty squares |
| `Rays.PathCaptureIsClear` | src/board/check.rs:68-69 | the same fact, stated over an explicit path |
| `Rays.RayReachesCapture` | src/board/check.rs:68-69 | an enemy piece at multiplier k behind empty squares makes the ray end in its capture |
| `Rays.RayEndsInCapture` | src/board/check.rs:68-69 | a ray ends in a capture of q exactly when some multiplier reaches q, q holds an enemy piece, and every earlier multiplier is empty |
| `Rays.StepZero` | src/board/check.rs:26 | multiplier 0, which the king test passes, is the origin itself |
| `Rays.StepLeavesOrigin` | src/piece/trait_implementations.rs:16-20 | a walk over a range starting at 1 never revisits the origin |
| `Check.CheckByPawn` | src/board/check.rs:82-96 | the pawn test fires exactly when one of its squares is on the board and holds exactly the given pawn; an off-board square contributes false |
| `Check.RayHitsIsAttack` | src/board/check.rs:26-34 | a firing ray test has an attacker at some multiplier behind empty squares |
| `Check.AttackIsRayHit` | src/board/check.rs:26-34 | an attacker behind empty squares makes the ray test fire |
| `Check.RayHitsIffAttack` | src/board/check.rs:68-78 | the ray test fires exactly when the declarative attack exists |
| `Check.AnyRayHits` | src/board/check.rs:25-37 | the test over a direction list fires exactly when one of its directions fires |
| `Check.CheckVector` | src/board/check.rs:58-80 | `check_vector` fires exactly when one direction reaches, over the Infinity range and behind empty squares, an enemy piece from the list |
| `Check.PawnThreat` | src/board/check.rs:12-23 | the two pawn squares are the diagonals one step along the player's own pawn direction, (-1, 1) and (1, 1) for White, (-1, -1) and (1, -1) for Black, and they are tested for a Default-state pawn of the opponent |
| `Check.IsInCheckIffAttacked` | src/board/check.rs:6-55 | `is_in_check` answers exactly the reference question `Attacked`: an enemy Default pawn on a pawn square, an adjacent enemy king, a rook or queen along a rook line, a bishop or queen along a diagonal, or a knight along a repeated knight offset |
| `Check.PawnTestIgnoresUnmovedPawns` | src/board/check.rs:14-19 | an enemy pawn in FirstMove or PosibleEnPassant state is invisible to the pawn test, as if its square were empty |
| `Check.DefaultPawnAttacks` | src/board/check.rs:12-23 | a Default-state enemy pawn on a pawn square puts the target in check |
| `Check.KnightRepeatsOffset` | src/board/check.rs:48 | an enemy knight two knight offsets away, behind an empty square, counts as an attack |
| `Check.OwnPieceStopsKingTest` | src/board/check.rs:25-37 | a piece of the player's own side on the target stops every walk of the king test |
| `Check.EmptyTargetKingDirection` | src/board/check.rs:25-37 | from an empty target, one king direction fires exactly on an enemy king one step away |
| `Check.EmptyTargetKingTest` | src/board/check.rs:25-37 | from an empty target, the king test fires exactly when an enemy king is adjacent |
| `Check.EmptyTargetRays` | src/board/check.rs:25-37 | from an empty target, the multiplier-0..2 king walk over any list of directions fires exactly when an enemy king stands one step along one of them |
| `PawnMoves.ForwardPass` | src/piece/pawn_moves.rs:13-30 | the forward pass marks Move exactly the squares the forward walk reaches, and nothing else |
| `PawnMoves.CapturePasses` | src/piece/pawn_moves.rs:32-110 | the capture passes mark Capture exactly the capture and en-passant targets, and leave every other entry as it was |
| `PawnMoves.GetPawnMoves` | src/piece/pawn_moves.rs:8-113 | a capture target is Capture, any other square the forward walk reaches is Move, and every other square is empty |
| `PawnMoves.PawnMovesSound` | src/piece/pawn_moves.rs:22-108 | every Move entry is an empty square and every Capture entry holds a piece of the other side |
| `PawnMoves.ForwardReachShortRange` | src/piece/pawn_moves.rs:16-29 | with a range ending at 2 or 3, the walk reaches only multiplier 1, or multiplier 2 past an empty first square |
| `PawnMoves.PawnForwardTarget` | src/piece/pawn_moves.rs:15-16 | a pawn's forward targets come from its one direction, with a range ending at 3 on the first move and at 2 otherwise |
| `PawnMoves.PawnMoveEntryIsForward` | src/piece/pawn_moves.rs:15-29 | a pawn's Move entries are forward targets |
| `PawnMoves.ForwardEntriesBounded` | src/piece/pawn_moves.rs:16-29 | a Move entry is one step ahead, or two steps ahead on the first move only |
| `PawnMoves.BlockedPawnHasNoForwardMoves` | src/piece/pawn_moves.rs:22-27 | a pawn whose square ahead is occupied, by friend or foe, has no Move entry |
| `PawnMoves.AddInjective` | src/position.rs:44-64 | from one square, different vectors lead to different squares |
| `PawnMoves.BlackCapturesTowardsOneOne` | src/piece/pawn_moves.rs:54-58 | a Black pawn marks an enemy piece at (1, 1) as a capture, as written |
| `PawnMoves.BlackIgnoresOneMinusOne` | src/piece/pawn_moves.rs:47-59 | a Black pawn never marks an occupied square at (1, -1) |
| `PawnMoves.EnPassantMarksNeighbour` | src/piece/pawn_moves.rs:62-110 | an enemy PosibleEnPassant pawn beside the pawn is itself marked Capture |
| `KingMoves.Castle` | src/piece/king_moves.rs:27-67 | a castling test changes only its destination, and only to Move when its squares are empty and unattacked |
| `KingMoves.GetKingMoves` | src/piece/king_moves.rs:8-25 | a square is Move if it is the destination of a side whose right is held and whose test passes; otherwise it is the standard map's entry |
| `KingMoves.CastlingOnlyAdds` | src/piece/king_moves.rs:15-24 | castling keeps every standard entry, changes only the two destinations, and only to Move |
| `KingMoves.NoRightsNoCastling` | src/piece/king_moves.rs:17-22 | without either right the result is the standard move map |
| `KingMoves.WhiteKingSide` | src/piece/king_moves.rs:33-48 | with the right, G1 becomes Move exactly when F1 and G1 are empty and neither is attacked |
| `KingMoves.BlackKingSide` | src/piece/king_moves.rs:50-65 | with the right, G8 becomes Move exactly when F8 and G8 are empty and neither is attacked |
| `KingMoves.WhiteQueenSide` | src/piece/king_moves.rs:76-97 | with the right, B1 becomes Move exactly when B1, C1 and D1 are empty and none is attacked |
| `KingMoves.BlackQueenSide` | src/piece/king_moves.rs:99-120 | with the right, B8 becomes Move exactly when B8 and C8 are empty (D8 is never tested) and B8, C8 and D8 are unattacked |
| `KingMoves.RulesAvoidKingSquare` | src/piece/king_moves.rs:27-122 | E1/E8 is in none of the tested lists, and each destination is on the side's back rank |
| `KingMoves.BlackQueenSideFromD8` | src/piece/king_moves.rs:99-120 | a Black king on D8 that kept its queen-side right has its own square tested for attacks but not for emptiness, and castles to B8 when B8 and C8 are empty and B8, C8 and D8 unattacked |
| `Game.GetValidMoves` | src/board.rs:172-204 | no map exactly for an empty square; a pawn gets exactly the `get_pawn_moves` map, whose Move entries are empty squares and whose Capture entries hold opposing pieces |
| `Game.ValidMovesKing` | src/board.rs:197-203 | a king gets exactly the `get_king_moves` map, with its own castling rights and its own side |
| `Game.ValidMovesIgnoreTurn` | src/board.rs:172-204 | the move map depends on the board only, not on whose turn it is |
| `Game.ValidMovesDispatch` | src/board.rs:197-203 | a non-king non-pawn gets exactly the standard map; a king's map contains it, and equals it without castling rights |
| `Game.MovePiece` | src/board.rs:206-272 | defined for every origin not held by the side to move, with no walk condition on it; NoPiece exactly when the origin holds no piece of the side to move; InvalidMove exactly when the destination is not in the move map; NoMoves never; an error changes nothing; on success the piece moves, the origin empties, every other square, the state and the king squares are unchanged, the turn flips and the result is Ongoing |
| `Game.MoveSucceedsIff` | src/board.rs:211-225 | for any origin whose piece, if it belongs to the side to move, has a defined walk, a move succeeds exactly when the origin holds a piece of the side to move and the destination is in its move map |
| `Game.NoSecondMoveBySameSide` | src/board.rs:211-221 | right after a move, moving the same piece again is refused with NoPiece, wherever it stands |
| `Game.WrongSideRefused` | src/board.rs:211-221 | a piece of the side not to move is refused with NoPiece and the game unchanged, whatever its pawn walk would do |
| `Game.TwoMovesRestoreTurn` | src/board.rs:260-263 | two successful moves give the turn back |
| `Game.SetAll` | src/board/trait_implementation.rs:17-59 | a run of `set` calls leaves squares it never names unchanged, and the last write to a square wins |
| `Game.PawnRow` | src/board/trait_implementation.rs:33-38 | a pawn row is eight placements of the given pawn on the given rank |
| `Game.PawnRowAt` | src/board/trait_implementation.rs:33-38 | a pawn row puts the pawn on every square of its rank and leaves the other ranks alone |
| `Game.BackRankAt` | src/board/trait_implementation.rs:19-29 | a back rank puts R N B Q K B N R on its rank, in file order, and leaves the other ranks alone |
| `Game.InitialLayout` | src/board/trait_implementation.rs:15-59 | every square of the initial board holds the standard initial piece: back ranks, unmoved pawns on ranks Two and Seven, nothing on ranks Three to Six |
| `Game.InitialKings` | src/board/trait_implementation.rs:29-31 | E1 and E8 hold the fresh kings, both with full castling rights |
| `Game.InitialGameFields` | src/board/trait_implementation.rs:61-72 | White to move, Ongoing, kings cached on E1 and E8, counters 0, no en-passant squares |
| `Game.HomeCountStep` | src/board/trait_implementation.rs:17-59 | each further storage slot adds one to the count exactly when it lies on a home rank |
| `Game.CountHomeRanks` | src/board/trait_implementation.rs:17-59 | a board occupied exactly on the home ranks has `HomeCount(n)` pieces among its first n entries |
| `Game.SquareAt` | src/board.rs:31-41 | every storage slot below 64 belongs to a square |
| `Game.InitialPieceCount` | src/board/trait_implementation.rs:17-59 | a board laid out as the initial position holds exactly 32 pieces |
| `Fen.PieceOf` | src/board/serilize.rs:35-58 | exactly the letters `kqbnrpKQBNRP` are pieces; lower case is Black; kings have no castling rights and pawns are Default |
| `Fen.LetterCaseGivesColour` | src/board/serilize.rs:35-58 | a recognised letter gives White exactly when it is upper case |
| `Fen.Advance` | src/board/serilize.rs:30-58 | a digit n moves the storage cursor n squares forward, stopping at 64; a letter moves it one square; it never moves backward or past 64 |
| `Fen.CursorAfter` | src/board/serilize.rs:28-61 | the cursor never moves backwards and never passes 64 |
| `Fen.CursorAfterShift` | src/board/serilize.rs:28-61 | the cursor after a prefix can be computed from the second character on |
| `Fen.SquareOf` | src/board/serilize.rs:38 | the square `(n / 8, n % 8)` is stored at index n |
| `Fen.PlaceChar` | src/board/serilize.rs:29-59 | one character is accepted exactly when it is a digit or piece letter, advances the index by one and the cursor by its width, and anything else is IncorrectFenString |
| `Fen.Place` | src/board/serilize.rs:28-61 | the scan succeeds exactly when every character is accepted, fails only with IncorrectFenString, and ends with the cursor after the whole text |
| `Fen.PlaceKeepsEarlierSquares` | src/board/serilize.rs:28-61 | squares before the cursor are never written again |
| `Fen.PlaceWritesLetter` | src/board/serilize.rs:35-58 | the letter at character j puts its piece at the storage slot the cursor reaches after the first j characters |
| `Fen.PlaceKeepsUntouched` | src/board/serilize.rs:30-34 | a storage slot no letter reaches keeps its value |
| `Fen.StartScan` | src/board/serilize.rs:21-26 | the scan starts on an empty board with cursor and index at 0 |
| `Fen.Import` | src/board/serilize.rs:11-92 | import succeeds exactly when every placement character is accepted and the turn is `w` or `b`; errors are IncorrectFenString; the game gets that turn, Ongoing, no en-passant squares and the given counters |
| `Fen.TurnOf` | src/board/serilize.rs:63-67 | `w` is White, `b` is Black, anything else is IncorrectFenString |
| `Fen.KingLetter` | src/board/serilize.rs:35-53 | `K` gives the White king and `k` the Black king, both without castling rights |
| `Fen.PlaceKeepsKing` | src/board/serilize.rs:25-26 | without its king letter a side's cached square is unchanged |
| `Fen.PlaceFirstKing` | src/board/serilize.rs:37-50 | a king letter first in the text caches the square of the current character index or cursor |
| `Fen.PlaceLastKing` | src/board/serilize.rs:37-50 | the last king letter of a side, at character j, caches index+j as written, or the cursor under the corrected rule |
| `Fen.ImportCarriesScan` | src/board/serilize.rs:80-91 | the imported game carries the scan's board and king squares |
| `Fen.ImportPlacesLetters` | src/board/serilize.rs:28-61 | each letter's piece is on the square its cursor reaches, and a square no letter reaches is empty |
| `Fen.ImportDefaultKings` | src/board/serilize.rs:25-26 | without a king letter the cached square stays E1 for White and E8 for Black |
| `Fen.FromFenKingFromCharIndex` | src/board/serilize.rs:37-50 | as written, the cached king square is the square stored at the king letter's character index |
| `Fen.ImportIgnoresCastlingAndEnPassant` | src/board/serilize.rs:16-17 | the castling and en-passant fields have no effect on the result |
| `Fen.SlashIsRejected` | src/board/serilize.rs:59 | a `/` anywhere in the placement gives IncorrectFenString |
| `Fen.CharIndexKingMisplaced` | src/board/serilize.rs:47-52 | on placement `2K`, the White king is written to A3 but cached as A2, which stays empty |
| `Fen.PlaceKingHolds` | src/board/serilize.rs:47-52 | under the storage-index rule, the cached square of a scanned king letter holds that king |
| `Fen.StorageIndexKingHolds` | src/board/serilize.rs:35-52 | under the storage-index rule, the cached king square of the imported game holds that side's king |

## Left out

- `get_standard_valid_move` is defined elsewhere in the crate and not modelled. Its move map is a parameter of `KingMoves.GetKingMoves`, `Game.GetValidMoves` and `Game.MovePiece`, so the rook scenario of `src/test.rs:13-39`, which depends on it, is not stated.
- The bodies of `evaluate_vector` and `vector_multiplication` are defined elsewhere in the crate and not modelled. `Rays` gives them the ray walk their callers assume, with the same rule at every multiplier, including the multiplier 0 of the king test.
- The flat `Board::get`/`Board::set` are defined elsewhere in the crate and not modelled. `Boards.Index` assumes the storage index `8 * file + rank`, chosen to match `get_index`/`set_index` of `src/board.rs:31-41` and the `(i / 8, i % 8)` of `from_fen`.
- `get_file`/`get_rank` and `From<(File, Rank)>` are field reads and the datatype constructor; they need no member.
- `ColouredPiece::None` of `src/piece.rs` is gone: an empty square is `None` at the board level. So the `None` answers of `get_movement_base_vector` and `get_number_of_moves` have no counterpart.
- The `CastlingState` enum of `src/piece.rs:97-101` is replaced by the `(bool, bool)` pair the newer files use.
- The position-history maps of `ChessGame` are left out; they are only ever constructed empty.
- `get_player_turn` and `get_game_state` are field reads of `ChessGame`.
- The private `is_in_check` and its helpers in `src/board.rs:284-353` are dead code and not modelled: every call to them is commented out.
- The commented-out self-check filters of `get_valid_moves` and `move_piece` are not modelled.
- The `NoMoves` error of `move_piece` cannot occur, because `get_valid_moves` returns a map for every occupied origin. The contract of `Game.MovePiece` states that it is never returned.
- `from_fen`'s text splitting (`split_whitespace`, the six `unwrap`s) and the `parse` of the two counters are library text handling. The model takes the six fields already split, with the counters as numbers.
- The `next().unwrap()` panic of the placement scan on a letter once all 64 squares are consumed is the precondition `!Overflows`, not modelled behaviour. A digit past the end does not panic and is modelled as stopping at 64.
- The `FILE` constant iterated by the initial pawn loops is not shown; it is taken to list A to H.
- Integer widths: `half_move`/`full_move` are unbounded naturals. The character index of a king letter needs no bound, because under `!Overflows` it stays below 64.

## Findings

| source | as written | input that shows it | evidently intended | confidence | as-written member | corrected member |
|---|---|---|---|---|---|---|
| src/board/serilize.rs:37-38 | the cached king square is built from the character index `i` of the king letter, as `(i / 8, i % 8)` | placement `2K`, turn `w`: the king is written to storage slot 2 (A3) but cached as A2, which stays empty | the cached square is the one the king was written to, i.e. the storage cursor | not executed | `Fen.CharIndexKingMisplaced` | `Fen.StorageIndexKingHolds` |
