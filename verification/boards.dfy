/** The 64-slot board container and the small enums of src/board.rs.

    The board is one flat sequence of 64 optional entries, as in
    src/board/trait_implementation.rs. The newer `Board::get`/`Board::set`
    are defined elsewhere in the crate and not modelled; the storage order is
    an assumption, chosen to match the `[file][rank]` layout of
    `get_index`/`set_index` in src/board.rs and the `(i / 8, i % 8)` of
    `from_fen`: the square (file, rank) lives at index `8 * file + rank`.
 */
module Boards {
  import opened Outcomes
  import opened Positions
  import opened Pieces

  datatype Turn = White | Black

  datatype GameState = Ongoing | Check | CheckMate

  datatype MoveType = Move | Capture

  type Board<T> = s: seq<Option<T>> | |s| == 64 witness seq(64, _ => None)

  /** Storage index of a square. */
  function Index(p: BoardPosition): (i: nat)
    ensures i < 64
  {
    8 * FileToU8(p.file) + RankToU8(p.rank)
  }

  /** Different squares occupy different storage slots. */
  lemma IndexInjective(p: BoardPosition, q: BoardPosition)
    ensures Index(p) == Index(q) <==> p == q
  {
    ToPairInjective(p, q);
  }

  /** `Board::get`. */
  function Get<T>(b: Board<T>, p: BoardPosition): Option<T>
  {
    b[Index(p)]
  }

  /** `Board::set`: the square takes the new value; every other square keeps its own. */
  function Set<T>(b: Board<T>, p: BoardPosition, v: Option<T>): (r: Board<T>)
    ensures Get(r, p) == v
    ensures forall q :: Get(r, q) == if q == p then v else Get(b, q)
  {
    var r := b[Index(p) := v];
    assert forall q :: Get(r, q) == if q == p then v else Get(b, q) by {
      forall q
        ensures Get(r, q) == if q == p then v else Get(b, q)
      {
        IndexInjective(p, q);
      }
    }
    r
  }

  /** `Board::default`: all 64 squares empty. */
  function EmptyBoard<T>(): (b: Board<T>)
    ensures forall p :: Get(b, p) == None
  {
    seq(64, _ => None)
  }

  /** The side that owns a coloured value. */
  function SideOf<T>(c: Color<T>): (t: Turn)
    ensures t == Turn.White <==> c.White?
  {
    match c
    case White(_) => Turn.White
    case Black(_) => Turn.Black
  }

  /** The other side. */
  function Opponent(t: Turn): (o: Turn)
    ensures o != t
  {
    match t
    case White => Turn.Black
    case Black => Turn.White
  }
}
