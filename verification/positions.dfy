/** Coordinate system: files, ranks, board positions and checked vector
    addition (src/position.rs and src/position/trait_implementation.rs).

    Rust's `u8` and `i8` are modelled as the integer ranges `U8` and `I8`;
    `checked_add` / `checked_sub` on `u8` are written out explicitly.
 */
module Positions {
  import opened Outcomes

  type U8 = x: int | 0 <= x < 256
  type I8 = x: int | -128 <= x < 128

  /** A signed (file, rank) displacement, as the source's `(i8, i8)`. */
  type Vector = (I8, I8)

  datatype File = A | B | C | D | E | F | G | H
  datatype Rank = One | Two | Three | Four | Five | Six | Seven | Eight

  datatype BoardPosition = BoardPosition(file: File, rank: Rank)

  // ---------------------------------------------------------------------
  // File / Rank <-> u8

  /** `u8::from(&File)`: A..H map to 0..7. */
  function FileToU8(f: File): (n: U8)
    ensures n < 8
  {
    match f
    case A => 0
    case B => 1
    case C => 2
    case D => 3
    case E => 4
    case F => 5
    case G => 6
    case H => 7
  }

  /** `File::try_from(u8)`: defined exactly on 0..7, `OutOfBounds` otherwise. */
  function FileFromU8(n: U8): (r: Result<File>)
    ensures r.Ok? <==> n < 8
    ensures r.Ok? ==> FileToU8(r.value) == n
    ensures r.Err? ==> r.error == OutOfBounds
  {
    if n < 8 then Ok([A, B, C, D, E, F, G, H][n]) else Err(OutOfBounds)
  }

  /** `u8::from(&Rank)`: One..Eight map to 0..7. */
  function RankToU8(r: Rank): (n: U8)
    ensures n < 8
  {
    match r
    case One => 0
    case Two => 1
    case Three => 2
    case Four => 3
    case Five => 4
    case Six => 5
    case Seven => 6
    case Eight => 7
  }

  /** `Rank::try_from(u8)`: defined exactly on 0..7, `OutOfBounds` otherwise. */
  function RankFromU8(n: U8): (r: Result<Rank>)
    ensures r.Ok? <==> n < 8
    ensures r.Ok? ==> RankToU8(r.value) == n
    ensures r.Err? ==> r.error == OutOfBounds
  {
    if n < 8 then Ok([One, Two, Three, Four, Five, Six, Seven, Eight][n]) else Err(OutOfBounds)
  }

  lemma FileRoundTrip(f: File)
    ensures FileFromU8(FileToU8(f)) == Ok(f)
  {
  }

  lemma RankRoundTrip(r: Rank)
    ensures RankFromU8(RankToU8(r)) == Ok(r)
  {
  }

  // ---------------------------------------------------------------------
  // BoardPosition <-> (u8, u8)

  /** `<(u8, u8)>::from(&BoardPosition)`. */
  function ToPair(p: BoardPosition): (t: (U8, U8))
    ensures t.0 < 8 && t.1 < 8
  {
    (FileToU8(p.file), RankToU8(p.rank))
  }

  /** `BoardPosition::try_from((u8, u8))`: the file is converted first, then
      the rank; either failure is `OutOfBounds`. */
  function FromPair(t: (U8, U8)): (r: Result<BoardPosition>)
    ensures r.Ok? <==> t.0 < 8 && t.1 < 8
    ensures r.Ok? ==> ToPair(r.value) == t
    ensures r.Err? ==> r.error == OutOfBounds
  {
    match FileFromU8(t.0)
    case Err(e) => Err(e)
    case Ok(f) =>
      match RankFromU8(t.1)
      case Err(e) => Err(e)
      case Ok(r) => Ok(BoardPosition(f, r))
  }

  /** Both round trips between positions and coordinate pairs. */
  lemma PairRoundTrip(p: BoardPosition, t: (U8, U8))
    ensures FromPair(ToPair(p)) == Ok(p)
    ensures FromPair(t).Ok? ==> ToPair(FromPair(t).value) == t
  {
    FileRoundTrip(p.file);
    RankRoundTrip(p.rank);
  }

  /** Distinct positions have distinct coordinate pairs. */
  lemma ToPairInjective(p: BoardPosition, q: BoardPosition)
    ensures ToPair(p) == ToPair(q) <==> p == q
  {
    PairRoundTrip(p, ToPair(p));
    PairRoundTrip(q, ToPair(q));
  }

  // ---------------------------------------------------------------------
  // Checked vector addition

  function CheckedAddU8(a: U8, b: U8): Option<U8>
  {
    if a + b < 256 then Some(a + b) else None
  }

  function CheckedSubU8(a: U8, b: U8): Option<U8>
  {
    if b <= a then Some(a - b) else None
  }

  function UnsignedAbs(x: I8): U8
  {
    if x < 0 then -(x as int) else x as int
  }

  /** One coordinate of `BoardPosition::add`: add a non-negative delta with
      `checked_add`, subtract the magnitude of a negative one with
      `checked_sub`; an overflow or underflow is `OutOfBounds`. */
  function ShiftCoordinate(c: U8, d: I8): Result<U8>
  {
    var shifted := if d >= 0 then CheckedAddU8(c, UnsignedAbs(d)) else CheckedSubU8(c, UnsignedAbs(d));
    match shifted
    case None => Err(OutOfBounds)
    case Some(n) => Ok(n)
  }

  /** `BoardPosition::add`: succeeds exactly when both shifted coordinates lie
      in 0..7, and then moves by exactly the vector; it never wraps or clamps. */
  function Add(p: BoardPosition, v: Vector): (r: Result<BoardPosition>)
    ensures r.Ok? <==> 0 <= FileToU8(p.file) + v.0 < 8 && 0 <= RankToU8(p.rank) + v.1 < 8
    ensures r.Ok? ==> FileToU8(r.value.file) == FileToU8(p.file) + v.0
    ensures r.Ok? ==> RankToU8(r.value.rank) == RankToU8(p.rank) + v.1
    ensures r.Err? ==> r.error == OutOfBounds
  {
    var (file, rank) := ToPair(p);
    match ShiftCoordinate(file, v.0)
    case Err(e) => Err(e)
    case Ok(newFile) =>
      match ShiftCoordinate(rank, v.1)
      case Err(e) => Err(e)
      case Ok(newRank) => FromPair((newFile, newRank))
  }

  /** Adding the zero vector is the identity. */
  lemma AddZero(p: BoardPosition)
    ensures Add(p, (0, 0)) == Ok(p)
  {
    ToPairInjective(p, Add(p, (0, 0)).value);
  }

  /** Undoing a successful addition with the negated vector returns to the start. */
  lemma AddInverse(p: BoardPosition, v: Vector)
    requires -128 < v.0 && -128 < v.1
    requires Add(p, v).Ok?
    ensures Add(Add(p, v).value, (-v.0, -v.1)) == Ok(p)
  {
    var q := Add(p, v).value;
    ToPairInjective(p, Add(q, (-v.0, -v.1)).value);
  }

  /** Two successful additions compose into one addition of the summed vector. */
  lemma AddCompose(p: BoardPosition, a: Vector, b: Vector)
    requires -128 <= a.0 + b.0 < 128 && -128 <= a.1 + b.1 < 128
    requires Add(p, a).Ok? && Add(Add(p, a).value, b).Ok?
    ensures Add(p, (a.0 + b.0, a.1 + b.1)) == Add(Add(p, a).value, b)
  {
    var q := Add(Add(p, a).value, b).value;
    ToPairInjective(q, Add(p, (a.0 + b.0, a.1 + b.1)).value);
  }

  /** The conversion test of src/position.rs: (A, k) is (0, k) and (k, One) is (k, 0). */
  lemma ConversionsAgree(n: U8)
    requires n < 8
    ensures FromPair((0, n)) == Ok(BoardPosition(A, RankFromU8(n).value))
    ensures FromPair((n, 0)) == Ok(BoardPosition(FileFromU8(n).value, One))
  {
  }
}
