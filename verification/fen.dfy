/** `ChessGame::from_fen` (src/board/serilize.rs): the placement scan, the
    turn field and the fields of the imported game.

    Splitting the string into six fields and parsing the two counters are
    library text handling: the importer here receives the six fields with
    the counters already parsed. Every `unwrap` that could panic becomes a
    precondition.
 */
module Fen {
  import opened Outcomes
  import opened Positions
  import opened Pieces
  import opened Shorthands
  import opened Boards
  import opened Game

  /** The six whitespace-separated fields of a FEN record. */
  datatype FenFields = FenFields(placement: string, turn: string, castling: string, enPassant: string, halfMove: nat, fullMove: nat)

  /** The piece a placement letter stands for: lower case is Black, upper case
      is White; kings come without castling rights and pawns in the Default
      state (the `WHITE_*`/`BLACK_*` constants). */
  function PieceOf(c: char): (r: Option<Color<Piece>>)
    ensures r.Some? <==> c in "kqbnrpKQBNRP"
    ensures r.Some? ==> (r.value.Black? <==> 'a' <= c <= 'z')
    ensures r.Some? && r.value.inner.King? ==> r.value.inner.castling == (false, false)
    ensures r.Some? && r.value.inner.Pawn? ==> r.value.inner.state == Default
  {
    match c
    case 'k' => Some(BLACK_KING)
    case 'q' => Some(BLACK_QUEEN)
    case 'b' => Some(BLACK_BISHOP)
    case 'n' => Some(BLACK_KNIGHT)
    case 'r' => Some(BLACK_ROOK)
    case 'p' => Some(BLACK_PAWN)
    case 'K' => Some(WHITE_KING)
    case 'Q' => Some(WHITE_QUEEN)
    case 'B' => Some(WHITE_BISHOP)
    case 'N' => Some(WHITE_KNIGHT)
    case 'R' => Some(WHITE_ROOK)
    case 'P' => Some(WHITE_PAWN)
    case _ => None
  }

  /** The lower- and upper-case form of a letter name the same kind of piece,
      Black and White respectively. */
  lemma LetterCaseGivesColour(c: char)
    requires c in "kqbnrp"
    ensures var upper := (c as int - 32) as char;
            && PieceOf(c).Some? && PieceOf(upper).Some?
            && PieceOf(c).value == Color.Black(PieceOf(upper).value.inner)
            && PieceOf(upper).value == Color.White(PieceOf(c).value.inner)
  {
  }

  /** A digit `1`..`8`, which leaves that many squares empty. */
  predicate IsSkip(c: char) {
    '1' <= c <= '8'
  }

  /** Every placement character the scan accepts. */
  predicate Accepted(c: char) {
    IsSkip(c) || PieceOf(c).Some?
  }

  /** The storage cursor after one character: a digit skips `n` squares
      (`skip(n - 1)` then `next()`, both stopping at the end of the board),
      a letter takes one square. The cursor never passes 64; a letter at 64
      is the panic `Overflows` rules out. */
  function Advance(cursor: nat, c: char): (n: nat)
    ensures cursor <= 64 ==> cursor <= n <= 64
    ensures cursor < 64 ==> cursor < n
    ensures IsSkip(c) ==> n == if cursor + (c as int - '0' as int) < 64 then cursor + (c as int - '0' as int) else 64
    ensures !IsSkip(c) && cursor < 64 ==> n == cursor + 1
  {
    var width := if IsSkip(c) then c as int - '0' as int else 1;
    if cursor + width < 64 then cursor + width else 64
  }

  /** The cursor after a whole run of characters. */
  function CursorAfter(cursor: nat, s: string): (n: nat)
    ensures cursor <= 64 ==> cursor <= n <= 64
    decreases |s|
  {
    if |s| == 0 then cursor else CursorAfter(Advance(cursor, s[0]), s[1..])
  }

  /** The cursor after a prefix, seen from the second character on. */
  lemma CursorAfterShift(cursor: nat, s: string, j: nat)
    requires 0 < j <= |s|
    ensures CursorAfter(cursor, s[..j]) == CursorAfter(Advance(cursor, s[0]), s[1..][..j - 1])
  {
    assert s[..j][1..] == s[1..][..j - 1];
  }

  /** The scan panics: a letter arrives when all 64 squares are consumed, so
      `next().unwrap()` fails. The source's callers must avoid this. */
  predicate Overflows(s: string, cursor: nat)
    decreases |s|
  {
    if |s| == 0 then false
    else if IsSkip(s[0]) then Overflows(s[1..], Advance(cursor, s[0]))
    else if PieceOf(s[0]).Some? then cursor >= 64 || Overflows(s[1..], Advance(cursor, s[0]))
    else false
  }

  /** How a king letter determines the cached king square. */
  datatype KingRule =
    | CharIndex    // as written: from the character index `i` as `(i / 8, i % 8)`
    | StorageIndex // the square the letter was written to

  /** Scan state: the board filled so far, the storage cursor, the character
      index of the next character and the two cached king squares. */
  datatype Scan = Scan(board: Board<Color<Piece>>, cursor: nat, index: nat, whiteKing: BoardPosition, blackKing: BoardPosition)

  /** The scan's invariant: the cursor never lags behind the character index
      unless it has reached the end of the board. */
  predicate ScanOk(st: Scan) {
    st.cursor <= 64 && (st.index <= st.cursor || st.cursor == 64)
  }

  /** The square `(n / 8, n % 8)`, i.e. the square stored at index `n`. */
  function SquareOf(n: nat): (p: BoardPosition)
    requires n < 64
    ensures Index(p) == n
  {
    FromPair((n / 8, n % 8)).value
  }

  /** The square a king letter at this point makes the cached king square. */
  function KingSquare(rule: KingRule, st: Scan): BoardPosition
    requires ScanOk(st) && st.cursor < 64
  {
    match rule
    case CharIndex => SquareOf(st.index)
    case StorageIndex => SquareOf(st.cursor)
  }

  /** One placement character: a digit advances the cursor, a letter writes
      its piece at the cursor (recording a king's square), anything else,
      `/` included, is `IncorrectFenString`. */
  function PlaceChar(rule: KingRule, st: Scan, c: char): (r: Result<Scan>)
    requires ScanOk(st)
    requires PieceOf(c).Some? ==> st.cursor < 64
    ensures r.Ok? <==> Accepted(c)
    ensures r.Ok? ==> ScanOk(r.value) && r.value.index == st.index + 1 && r.value.cursor == Advance(st.cursor, c)
    ensures r.Err? ==> r.error == IncorrectFenString
  {
    if IsSkip(c) then Ok(st.(cursor := Advance(st.cursor, c), index := st.index + 1))
    else match PieceOf(c)
      case None => Err(IncorrectFenString)
      case Some(p) =>
        var board := st.board[st.cursor := Some(p)];
        var king := KingSquare(rule, st);
        var whiteKing := if c == 'K' then king else st.whiteKing;
        var blackKing := if c == 'k' then king else st.blackKing;
        Ok(Scan(board, Advance(st.cursor, c), st.index + 1, whiteKing, blackKing))
  }

  /** The whole placement field, character by character: it succeeds exactly
      when every character is accepted, and the first character it rejects
      makes it fail with `IncorrectFenString`. */
  function Place(rule: KingRule, st: Scan, s: string): (r: Result<Scan>)
    requires ScanOk(st)
    requires !Overflows(s, st.cursor)
    ensures r.Ok? <==> forall j :: 0 <= j < |s| ==> Accepted(s[j])
    ensures r.Err? ==> r.error == IncorrectFenString
    ensures r.Ok? ==> ScanOk(r.value) && r.value.cursor == CursorAfter(st.cursor, s) && r.value.index == st.index + |s|
    decreases |s|
  {
    if |s| == 0 then Ok(st)
    else
      match PlaceChar(rule, st, s[0])
      case Err(e) => Err(e)
      case Ok(next) =>
        var r := Place(rule, next, s[1..]);
        assert forall j :: 0 < j < |s| ==> s[j] == s[1..][j - 1];
        r
  }

  /** Squares before the cursor are never written again. */
  lemma {:induction false} PlaceKeepsEarlierSquares(rule: KingRule, st: Scan, s: string, k: nat)
    requires ScanOk(st) && !Overflows(s, st.cursor)
    requires Place(rule, st, s).Ok? && k < st.cursor
    ensures Place(rule, st, s).value.board[k] == st.board[k]
    decreases |s|
  {
    if |s| > 0 {
      var next := PlaceChar(rule, st, s[0]).value;
      PlaceKeepsEarlierSquares(rule, next, s[1..], k);
    }
  }

  /** Each letter's piece lands on the storage index the characters before it
      leave the cursor at. */
  lemma {:induction false} PlaceWritesLetter(rule: KingRule, st: Scan, s: string, j: nat)
    requires ScanOk(st) && !Overflows(s, st.cursor)
    requires Place(rule, st, s).Ok? && j < |s| && PieceOf(s[j]).Some?
    ensures CursorAfter(st.cursor, s[..j]) < 64
    ensures Place(rule, st, s).value.board[CursorAfter(st.cursor, s[..j])] == PieceOf(s[j])
    decreases |s|
  {
    var next := PlaceChar(rule, st, s[0]).value;
    if j == 0 {
      PlaceKeepsEarlierSquares(rule, next, s[1..], st.cursor);
    } else {
      assert s[1..][j - 1] == s[j];
      CursorAfterShift(st.cursor, s, j);
      PlaceWritesLetter(rule, next, s[1..], j - 1);
    }
  }

  /** An index no letter reaches keeps its value. */
  lemma {:induction false} PlaceKeepsUntouched(rule: KingRule, st: Scan, s: string, k: nat)
    requires ScanOk(st) && !Overflows(s, st.cursor)
    requires Place(rule, st, s).Ok? && k < 64 && Untouched(st.cursor, s, k)
    ensures Place(rule, st, s).value.board[k] == st.board[k]
    decreases |s|
  {
    if |s| > 0 {
      var next := PlaceChar(rule, st, s[0]).value;
      forall j | 0 <= j < |s[1..]| && PieceOf(s[1..][j]).Some?
        ensures CursorAfter(next.cursor, s[1..][..j]) != k
      {
        CursorAfterShift(st.cursor, s, j + 1);
        assert s[j + 1] == s[1..][j];
      }
      if PieceOf(s[0]).Some? {
        assert s[..0] == [];
      }
      PlaceKeepsUntouched(rule, next, s[1..], k);
    }
  }

  /** No letter of `s` is written at storage index `k`. */
  predicate Untouched(cursor: nat, s: string, k: nat) {
    forall j :: 0 <= j < |s| && PieceOf(s[j]).Some? ==> CursorAfter(cursor, s[..j]) != k
  }

  /** The scan's start: an empty board, cursor and index at 0, kings on E1 and E8. */
  function StartScan(): (st: Scan)
    ensures ScanOk(st)
  {
    Scan(EmptyBoard(), 0, 0, BoardPosition(E, One), BoardPosition(E, Eight))
  }

  /** `from_fen` with the given king rule: the placement scan, then the turn
      field (`w` or `b`); the castling and en-passant fields are ignored, the
      state is `Ongoing`, the en-passant list is empty and the counters are
      taken as parsed. */
  function Import(rule: KingRule, fields: FenFields): (r: Result<ChessGame>)
    requires !Overflows(fields.placement, 0)
    ensures r.Ok? <==> (forall j :: 0 <= j < |fields.placement| ==> Accepted(fields.placement[j])) && (fields.turn == "w" || fields.turn == "b")
    ensures r.Err? ==> r.error == IncorrectFenString
    ensures r.Ok? ==> && r.value.turn == (if fields.turn == "w" then Turn.White else Turn.Black)
                      && r.value.state == Ongoing && r.value.enPassant == []
                      && r.value.halfMove == fields.halfMove && r.value.fullMove == fields.fullMove
  {
    match Place(rule, StartScan(), fields.placement)
    case Err(e) => Err(e)
    case Ok(st) =>
      match TurnOf(fields.turn)
      case Err(e) => Err(e)
      case Ok(turn) => Ok(ChessGame(st.board, turn, Ongoing, st.whiteKing, st.blackKing, [], fields.halfMove, fields.fullMove))
  }

  /** The turn field: `w` is White, `b` is Black, anything else is an error. */
  function TurnOf(s: string): (r: Result<Turn>)
    ensures r.Ok? <==> s == "w" || s == "b"
    ensures r.Ok? ==> (r.value == Turn.White <==> s == "w")
    ensures r.Err? ==> r.error == IncorrectFenString
  {
    if |s| == 1 && s[0] == 'w' then Ok(Turn.White)
    else if |s| == 1 && s[0] == 'b' then Ok(Turn.Black)
    else Err(IncorrectFenString)
  }

  /** `ChessGame::from_fen`, as written. */
  function FromFen(fields: FenFields): Result<ChessGame>
    requires !Overflows(fields.placement, 0)
  {
    Import(CharIndex, fields)
  }

  // ---------------------------------------------------------------------
  // Cached king squares

  /** The letter of a side's king. */
  function KingLetter(side: Turn): (c: char)
    ensures PieceOf(c) == Some(if side == Turn.White then WHITE_KING else BLACK_KING)
  {
    match side
    case White => 'K'
    case Black => 'k'
  }

  /** A scan's cached king square for `side`. */
  function KingOf(st: Scan, side: Turn): BoardPosition
  {
    match side
    case White => st.whiteKing
    case Black => st.blackKing
  }

  /** A game's cached king square for `side`. */
  function CachedKing(g: ChessGame, side: Turn): BoardPosition
  {
    match side
    case White => g.whiteKing
    case Black => g.blackKing
  }

  /** Without its king letter a side's cached square is left alone. */
  lemma {:induction false} PlaceKeepsKing(rule: KingRule, st: Scan, s: string, side: Turn)
    requires ScanOk(st) && !Overflows(s, st.cursor) && Place(rule, st, s).Ok?
    requires forall j :: 0 <= j < |s| ==> s[j] != KingLetter(side)
    ensures KingOf(Place(rule, st, s).value, side) == KingOf(st, side)
    decreases |s|
  {
    if |s| > 0 {
      var next := PlaceChar(rule, st, s[0]).value;
      assert forall j :: 0 <= j < |s[1..]| ==> s[1..][j] == s[j + 1];
      PlaceKeepsKing(rule, next, s[1..], side);
    }
  }

  /** A king letter as the first character: the cached square comes from the
      scan's current character index or cursor, both below 64. */
  lemma PlaceFirstKing(rule: KingRule, st: Scan, s: string, side: Turn)
    requires ScanOk(st) && !Overflows(s, st.cursor) && Place(rule, st, s).Ok?
    requires |s| > 0 && s[0] == KingLetter(side)
    requires forall k :: 0 < k < |s| ==> s[k] != KingLetter(side)
    ensures st.index <= st.cursor < 64
    ensures Index(KingOf(Place(rule, st, s).value, side)) == if rule == CharIndex then st.index else st.cursor
  {
    var next := PlaceChar(rule, st, s[0]).value;
    assert KingOf(next, side) == KingSquare(rule, st);
    assert forall k :: 0 <= k < |s[1..]| ==> s[1..][k] == s[k + 1];
    PlaceKeepsKing(rule, next, s[1..], side);
  }

  /** The last king letter of a side, at character `j`, fixes its cached
      square: by the character index `index + j` as written, or by the
      storage index it was written to. At that point both are below 64. */
  lemma {:induction false} PlaceLastKing(rule: KingRule, st: Scan, s: string, side: Turn, j: nat)
    requires ScanOk(st) && !Overflows(s, st.cursor) && Place(rule, st, s).Ok?
    requires j < |s| && s[j] == KingLetter(side)
    requires forall k :: j < k < |s| ==> s[k] != KingLetter(side)
    ensures st.index + j <= CursorAfter(st.cursor, s[..j]) < 64
    ensures Index(KingOf(Place(rule, st, s).value, side))
              == if rule == CharIndex then st.index + j else CursorAfter(st.cursor, s[..j])
    decreases |s|
  {
    if j == 0 {
      assert s[..0] == [];
      PlaceFirstKing(rule, st, s, side);
    } else {
      var next := PlaceChar(rule, st, s[0]).value;
      var rest := s[1..];
      assert rest[j - 1] == s[j];
      assert forall k :: j - 1 < k < |rest| ==> rest[k] == s[k + 1];
      assert Place(rule, st, s) == Place(rule, next, rest);
      assert next.index + (j - 1) == st.index + j;
      CursorAfterShift(st.cursor, s, j);
      PlaceLastKing(rule, next, rest, side, j - 1);
    }
  }

  // ---------------------------------------------------------------------
  // Properties of the imported game

  /** A successful import carries the board and king squares of the scan. */
  lemma ImportCarriesScan(rule: KingRule, fields: FenFields)
    requires !Overflows(fields.placement, 0) && Import(rule, fields).Ok?
    ensures Place(rule, StartScan(), fields.placement).Ok?
    ensures var st := Place(rule, StartScan(), fields.placement).value;
            var g := Import(rule, fields).value;
            g.board == st.board && g.whiteKing == st.whiteKing && g.blackKing == st.blackKing
  {
  }

  /** Each placement letter at character `j` puts its piece on the square whose
      storage index is the cursor after the first `j` characters; any square
      no letter reaches is empty. */
  lemma ImportPlacesLetters(rule: KingRule, fields: FenFields, q: BoardPosition)
    requires !Overflows(fields.placement, 0) && Import(rule, fields).Ok?
    ensures var s := fields.placement;
            var board := Import(rule, fields).value.board;
            && (forall j :: 0 <= j < |s| && PieceOf(s[j]).Some? && CursorAfter(0, s[..j]) == Index(q) ==> Get(board, q) == PieceOf(s[j]))
            && (Untouched(0, s, Index(q)) ==> Get(board, q) == None)
  {
    var s := fields.placement;
    forall j | 0 <= j < |s| && PieceOf(s[j]).Some? && CursorAfter(0, s[..j]) == Index(q)
      ensures Get(Import(rule, fields).value.board, q) == PieceOf(s[j])
    {
      PlaceWritesLetter(rule, StartScan(), s, j);
    }
    if Untouched(0, s, Index(q)) {
      PlaceKeepsUntouched(rule, StartScan(), s, Index(q));
    }
  }

  /** Without a king letter the cached square stays E1 (White) or E8 (Black). */
  lemma ImportDefaultKings(rule: KingRule, fields: FenFields, side: Turn)
    requires !Overflows(fields.placement, 0) && Import(rule, fields).Ok?
    requires forall j :: 0 <= j < |fields.placement| ==> fields.placement[j] != KingLetter(side)
    ensures CachedKing(Import(rule, fields).value, side)
              == if side == Turn.White then BoardPosition(E, One) else BoardPosition(E, Eight)
  {
    PlaceKeepsKing(rule, StartScan(), fields.placement, side);
  }

  /** As written, the cached king square is the square stored at the index
      given by the king letter's position in the placement text. */
  lemma FromFenKingFromCharIndex(fields: FenFields, side: Turn, j: nat)
    requires !Overflows(fields.placement, 0) && FromFen(fields).Ok?
    requires j < |fields.placement| && fields.placement[j] == KingLetter(side)
    requires forall k :: j < k < |fields.placement| ==> fields.placement[k] != KingLetter(side)
    ensures j < 64
    ensures Index(CachedKing(FromFen(fields).value, side)) == j
  {
    PlaceLastKing(CharIndex, StartScan(), fields.placement, side, j);
  }

  /** The castling and en-passant fields are read and ignored. */
  lemma ImportIgnoresCastlingAndEnPassant(rule: KingRule, fields: FenFields, castling: string, enPassant: string)
    requires !Overflows(fields.placement, 0)
    ensures Import(rule, fields.(castling := castling, enPassant := enPassant)) == Import(rule, fields)
  {
  }

  /** A `/` anywhere in the placement, the rank separator of Forsyth-Edwards
      Notation, makes the import fail. */
  lemma SlashIsRejected(rule: KingRule, fields: FenFields, j: nat)
    requires !Overflows(fields.placement, 0)
    requires j < |fields.placement| && fields.placement[j] == '/'
    ensures Import(rule, fields) == Err(IncorrectFenString)
  {
  }

  /** Counterexample for the as-written rule: in `2K` the king is written to
      storage index 2 (A3) but cached at index 1 (A2), which stays empty. */
  lemma CharIndexKingMisplaced()
    ensures var fields := FenFields("2K", "w", "-", "-", 0, 1);
            && !Overflows(fields.placement, 0) && FromFen(fields).Ok?
            && FromFen(fields).value.whiteKing == BoardPosition(A, Two)
            && Get(FromFen(fields).value.board, BoardPosition(A, Two)) == None
            && Get(FromFen(fields).value.board, BoardPosition(A, Three)) == Some(WHITE_KING)
  {
    var fields := FenFields("2K", "w", "-", "-", 0, 1);
    var s := fields.placement;
    var a2, a3 := BoardPosition(A, Two), BoardPosition(A, Three);
    assert s[..1] == "2" && s[..0] == [];
    assert CursorAfter(0, s[..1]) == 2;
    assert Index(a2) == 1 && Index(a3) == 2;
    assert s[1] == KingLetter(Turn.White);
    FromFenKingFromCharIndex(fields, Turn.White, 1);
    var g := FromFen(fields).value;
    IndexInjective(g.whiteKing, a2);
    ImportPlacesLetters(CharIndex, fields, a2);
    assert Untouched(0, s, 1);
    ImportPlacesLetters(CharIndex, fields, a3);
    assert CursorAfter(0, s[..1]) == Index(a3) && PieceOf(s[1]).Some?;
  }

  /** Scan-level form of `StorageIndexKingHolds`. */
  lemma PlaceKingHolds(st: Scan, s: string, side: Turn, j: nat)
    requires ScanOk(st) && !Overflows(s, st.cursor) && Place(StorageIndex, st, s).Ok?
    requires j < |s| && s[j] == KingLetter(side)
    requires forall k :: j < k < |s| ==> s[k] != KingLetter(side)
    ensures var r := Place(StorageIndex, st, s).value;
            Get(r.board, KingOf(r, side)) == Some(if side == Turn.White then WHITE_KING else BLACK_KING)
  {
    PlaceLastKing(StorageIndex, st, s, side, j);
    PlaceWritesLetter(StorageIndex, st, s, j);
  }

  /** With the king square taken from the storage index, the cached square of
      a side whose king letter occurs holds that side's king. */
  lemma StorageIndexKingHolds(fields: FenFields, side: Turn, j: nat)
    requires !Overflows(fields.placement, 0) && Import(StorageIndex, fields).Ok?
    requires j < |fields.placement| && fields.placement[j] == KingLetter(side)
    requires forall k :: j < k < |fields.placement| ==> fields.placement[k] != KingLetter(side)
    ensures var g := Import(StorageIndex, fields).value;
            Get(g.board, CachedKing(g, side)) == Some(if side == Turn.White then WHITE_KING else BLACK_KING)
  {
    ImportCarriesScan(StorageIndex, fields);
    PlaceKingHolds(StartScan(), fields.placement, side, j);
    var r := Place(StorageIndex, StartScan(), fields.placement).value;
    var g := Import(StorageIndex, fields).value;
    assert CachedKing(g, side) == KingOf(r, side);
  }
}
