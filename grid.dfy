/**
 * Square access for the two files of the older application crate that
 * address the board by (row, column): src/check_mate.rs and
 * src/valid_moves.rs. The helpers they call (`at(i, j)`,
 * `maybe_piece_at(i, j)`, `within_bounds_and_empty(i, j)`,
 * `within_bounds_and_occupied_by_opponent(i, j, color)`,
 * `contains_piece_in_any_direction(i, j, ...)`, their `Move` record of two
 * coordinate pairs) are not part of this model; they are defined here on the
 * bitboard position through the mapping (i, j) <-> i * 8 + j.
 */
module Grid {
  import opened Wrappers
  import opened Pieces
  import opened Board
  import opened BoardUtils
  import opened Moves

  /** A (row, column) pair; either component may be off the board. */
  type Coord = (int, int)

  predicate OnGrid(c: Coord)
  {
    0 <= c.0 < 8 && 0 <= c.1 < 8
  }

  /** The bit index of an on-board square. */
  function IndexOf(c: Coord): (k: SquareIndex)
    requires OnGrid(c)
    ensures 0 <= k < 64 && k / 8 == c.0 && k % 8 == c.1
  {
    c.0 * 8 + c.1
  }

  /** The square of a bit index; the inverse of `IndexOf`. */
  function CoordOf(k: int): (c: Coord)
    requires 0 <= k < 64
    ensures OnGrid(c) && IndexOf(c) == k
  {
    (k / 8, k % 8)
  }

  /** `maybe_piece_at(i, j)`: the piece on an on-board square, None off the board or on an empty square. */
  function PieceAt(p: Position, c: Coord): (r: Option<Piece>)
    requires p.ColorImpliesKind()
    ensures r.Some? <==> OnGrid(c) && IndexOf(c) in p.ColorMask()
    ensures r.Some? ==> p.At(IndexOf(c)) == Occupied(r.value)
  {
    if OnGrid(c) then MaybePieceAt(p, IndexOf(c)) else None
  }

  /** `within_bounds_and_empty(i, j)`. */
  predicate EmptyAt(p: Position, c: Coord)
    requires p.ColorImpliesKind()
  {
    OnGrid(c) && PieceAt(p, c).None?
  }

  /** `within_bounds_and_occupied_by_opponent(i, j, color)`. */
  predicate OpponentAt(p: Position, c: Coord, color: Color)
    requires p.ColorImpliesKind()
  {
    PieceAt(p, c).Some? && PieceAt(p, c).value.color != color
  }

  /** The square `d` away from `c`. */
  function Shift(c: Coord, d: (int, int)): Coord
  {
    (c.0 + d.0, c.1 + d.1)
  }

  /** `contains_piece_in_any_direction(i, j, piece, directions)`, an `any` over the deltas. */
  function ContainsPieceInAnyDirection(p: Position, c: Coord, pieceToFind: Piece, directions: seq<(int, int)>): bool
    requires p.ColorImpliesKind()
  {
    if |directions| == 0 then false
    else
      || PieceAt(p, Shift(c, directions[0])) == Some(pieceToFind)
      || ContainsPieceInAnyDirection(p, c, pieceToFind, directions[1..])
  }

  /** The test holds exactly when some delta lands on a square holding exactly `pieceToFind`. */
  lemma {:induction false} ContainsPieceInAnyDirectionIff(p: Position, c: Coord, pieceToFind: Piece, directions: seq<(int, int)>)
    requires p.ColorImpliesKind()
    ensures ContainsPieceInAnyDirection(p, c, pieceToFind, directions) <==>
      exists t :: 0 <= t < |directions| && PieceAt(p, Shift(c, directions[t])) == Some(pieceToFind)
    decreases |directions|
  {
    if |directions| > 0 {
      var rest := directions[1..];
      ContainsPieceInAnyDirectionIff(p, c, pieceToFind, rest);
      if exists t :: 0 <= t < |directions| && PieceAt(p, Shift(c, directions[t])) == Some(pieceToFind) {
        var t :| 0 <= t < |directions| && PieceAt(p, Shift(c, directions[t])) == Some(pieceToFind);
        if t > 0 {
          assert rest[t - 1] == directions[t];
        }
      }
      if exists t :: 0 <= t < |rest| && PieceAt(p, Shift(c, rest[t])) == Some(pieceToFind) {
        var t :| 0 <= t < |rest| && PieceAt(p, Shift(c, rest[t])) == Some(pieceToFind);
        assert directions[t + 1] == rest[t];
      }
    }
  }

  /** The move record of the 2-D files: a source and a target square. */
  datatype GridMove = GridMove(from: Coord, to: Coord)

  /** The same move on bit indices, without promotion. */
  function IndexMove(m: GridMove): (r: Move)
    requires OnGrid(m.from) && OnGrid(m.to)
    ensures r.from == IndexOf(m.from) && r.to == IndexOf(m.to) && r.promotedPieceKind.None?
  {
    BaseMove(IndexOf(m.from), IndexOf(m.to))
  }

  /**
   * The UCI text of a 2-D move: the text of its index move, which the UCI
   * parser reads back as that index move.
   */
  function GridUciString(m: GridMove): (s: string)
    requires OnGrid(m.from) && OnGrid(m.to)
    ensures FromUciString(s) == Ok(IndexMove(m))
  {
    UciRoundTrip(IndexMove(m));
    IndexMove(m).ToUciString().value
  }
}
