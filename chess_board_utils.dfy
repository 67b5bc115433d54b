/**
 * Bounds and occupancy queries over a position, the king finder and the walk
 * over the occupied squares in increasing index order.
 *
 * Every query that reads a square goes through `At`, so it needs the board's
 * coloured bits to be covered by the kind masks (`ColorImpliesKind`); the
 * source reaches an `unreachable!` otherwise.
 */
module BoardUtils {
  import opened Wrappers
  import opened Pieces
  import opened Directions
  import opened Board

  /** Some(index) exactly when `index` is on the board and no piece is on it. */
  function WithinBoundsAndEmpty(p: Position, index: int): (r: Option<SquareIndex>)
    requires p.ColorImpliesKind()
    ensures r.Some? <==> 0 <= index < 64 && index !in p.ColorMask()
    ensures r.Some? ==> r.value == index
  {
    match WithinBounds(index)
    case None => None
    case Some(i) =>
      match p.At(i)
      case Empty => Some(i)
      case Occupied(_) => None
  }

  /**
   * Some(index) when the square holds a piece of another colour than `color`.
   * With disjoint colour masks that is exactly the opponent's mask.
   */
  function OccupiedByOpponent(p: Position, index: SquareIndex, color: Color): (r: Option<SquareIndex>)
    requires index < 64 && p.ColorImpliesKind()
    ensures r.Some? ==> r.value == index && index in p.ColorMask()
    ensures p.whitePieces * p.blackPieces == {} ==> (r.Some? <==> index in p.PiecesOf(Not(color)))
  {
    assert index in p.whitePieces && index in p.blackPieces ==> index in p.whitePieces * p.blackPieces;
    match p.At(index)
    case Empty => None
    case Occupied(piece) => if piece.color != color then Some(index) else None
  }

  function WithinBoundsAndOccupiedByOpponent(p: Position, index: int, color: Color): (r: Option<SquareIndex>)
    requires p.ColorImpliesKind()
    ensures r.Some? ==> r.value == index && 0 <= index < 64 && index in p.ColorMask()
    ensures p.whitePieces * p.blackPieces == {} ==>
      (r.Some? <==> 0 <= index < 64 && index in p.PiecesOf(Not(color)))
  {
    match WithinBounds(index)
    case None => None
    case Some(i) => OccupiedByOpponent(p, i, color)
  }

  /** No square is both empty and held by the opponent. */
  lemma EmptyExcludesOpponent(p: Position, index: int, color: Color)
    requires p.ColorImpliesKind()
    ensures !(WithinBoundsAndEmpty(p, index).Some? && WithinBoundsAndOccupiedByOpponent(p, index, color).Some?)
  {
  }

  /**
   * A pawn may take on `index` when it is on the board and either is the
   * en-passant target, whatever stands there, or holds an opponent's piece.
   */
  function WithinBoundsAndPawnTakeTarget(p: Position, index: int, color: Color): (r: Option<SquareIndex>)
    requires p.ColorImpliesKind()
    ensures r.Some? ==> r.value == index && 0 <= index < 64
    ensures 0 <= index < 64 && p.EnPassantTargetSquare() == Some(index) ==> r.Some?
    ensures p.whitePieces * p.blackPieces == {} ==>
      (r.Some? <==> 0 <= index < 64 && (p.EnPassantTargetSquare() == Some(index) || index in p.PiecesOf(Not(color))))
  {
    match WithinBounds(index)
    case None => None
    case Some(i) =>
      if p.EnPassantTargetSquare() == Some(i) then Some(i)
      else OccupiedByOpponent(p, i, color)
  }

  /** The piece on `index`; None both off the board and on an empty square. */
  function MaybePieceAt(p: Position, index: int): (r: Option<Piece>)
    requires p.ColorImpliesKind()
    ensures r.None? <==> !(0 <= index < 64) || index !in p.ColorMask()
    ensures r.Some? ==> p.At(index) == Occupied(r.value)
  {
    match WithinBounds(index)
    case None => None
    case Some(i) =>
      match p.At(i)
      case Empty => None
      case Occupied(piece) => Some(piece)
  }

  /** On a valid board, `maybe_piece_at` reports a piece exactly where both its colour and kind bits are set. */
  lemma MaybePieceAtMasks(p: Position, index: int, piece: Piece)
    requires p.Valid()
    ensures MaybePieceAt(p, index) == Some(piece) <==>
      0 <= index < 64 && index in p.PiecesOf(piece.color) && index in p.PiecesOfKind(piece.kind)
  {
    if 0 <= index < 64 {
      p.AtDecodes(index);
    }
  }

  function ContainsPieceAt(p: Position, index: int, pieceToFind: Piece): (r: bool)
    requires p.ColorImpliesKind()
    ensures r <==> MaybePieceAt(p, index) == Some(pieceToFind)
  {
    match MaybePieceAt(p, index)
    case None => false
    case Some(piece) => piece == pieceToFind
  }

  /** The mover's piece; an error (the source panics) when the square is empty. */
  function PieceAtSourceOrPanic(p: Position, index: SquareIndex): (r: Result<Piece>)
    requires index < 64 && p.ColorImpliesKind()
    ensures r.Err? <==> index !in p.ColorMask()
    ensures r.Ok? ==> MaybePieceAt(p, index) == Some(r.value)
  {
    match p.At(index)
    case Occupied(piece) => Ok(piece)
    case Empty => Err("Invalid move: Cannot move from empty square")
  }

  /** True when one of the `directions` from `index` lands on `pieceToFind`. */
  function ContainsPieceInAnyDirection(p: Position, index: SquareIndex, pieceToFind: Piece, directions: seq<Delta>): (r: bool)
    requires p.ColorImpliesKind()
    ensures r <==> exists t :: 0 <= t < |directions| && ContainsPieceAt(p, ApplyDelta(index, directions[t]), pieceToFind)
    decreases |directions|
  {
    if |directions| == 0 then false
    else if ContainsPieceAt(p, ApplyDelta(index, directions[0]), pieceToFind) then true
    else
      var rest := ContainsPieceInAnyDirection(p, index, pieceToFind, directions[1..]);
      assert forall t :: 1 <= t < |directions| ==> directions[t] == directions[1..][t - 1];
      rest
  }

  // ---------------------------------------------------------------------------
  // find_king: the number of trailing zeros of (colour mask & kings).
  // ---------------------------------------------------------------------------

  /** The index of the lowest one bit of `m` at or above `from`, 64 when there is none. */
  function LowestBitFrom(m: Bitboard, from: int): (r: int)
    requires 0 <= from <= 64
    ensures from <= r <= 64
    ensures r < 64 ==> r in m
    ensures forall j :: from <= j < r ==> j !in m
    decreases 64 - from
  {
    if from == 64 then 64
    else if from in m then from
    else LowestBitFrom(m, from + 1)
  }

  /** `u64::trailing_zeros`: 64 for the empty mask. */
  function TrailingZeros(m: Bitboard): (r: int)
    ensures 0 <= r <= 64
    ensures r == 64 <==> m == {}
    ensures r < 64 ==> r in m && forall j :: 0 <= j < r ==> j !in m
  {
    var r := LowestBitFrom(m, 0);
    assert r == 64 ==> forall j :: j in m ==> 0 <= j < 64 && j !in m;
    r
  }

  function FindKing(p: Position, color: Color): (r: int)
    ensures 0 <= r <= 64
    ensures r == 64 <==> p.PiecesOf(color) * p.kings == {}
    ensures r < 64 ==> r in p.PiecesOf(color) && r in p.kings
    ensures forall j :: 0 <= j < r ==> j !in p.PiecesOf(color) * p.kings
  {
    TrailingZeros(p.PiecesOf(color) * p.kings)
  }

  /** With exactly one king of `color` on the board, `find_king` returns its square. */
  lemma FindKingOfOneKing(p: Position, color: Color, k: int)
    requires p.PiecesOf(color) * p.kings == {k}
    ensures FindKing(p, color) == k
  {
    assert k in p.PiecesOf(color) * p.kings;
  }

  // ---------------------------------------------------------------------------
  // for_each_piece: the callback invocations, in order, as a list of
  // (square, piece) pairs.
  // ---------------------------------------------------------------------------

  /** The occupied squares from `from` to 63 with their pieces, in increasing order. */
  function OccupiedFrom(p: Position, from: int): seq<(int, Piece)>
    requires 0 <= from <= 64 && p.ColorImpliesKind()
    decreases 64 - from
  {
    if from == 64 then []
    else
      match p.At(from)
      case Empty => OccupiedFrom(p, from + 1)
      case Occupied(piece) => [(from, piece)] + OccupiedFrom(p, from + 1)
  }

  /** Every callback invocation of `for_each_piece`. */
  function PieceList(p: Position): seq<(int, Piece)>
    requires p.ColorImpliesKind()
  {
    OccupiedFrom(p, 0)
  }

  method ForEachPiece(p: Position) returns (visits: seq<(int, Piece)>)
    requires p.ColorImpliesKind()
    ensures visits == PieceList(p)
  {
    visits := [];
    for index := 0 to 64
      invariant visits + OccupiedFrom(p, index) == PieceList(p)
    {
      match p.At(index) {
        case Empty =>
        case Occupied(piece) =>
          assert OccupiedFrom(p, index) == [(index, piece)] + OccupiedFrom(p, index + 1);
          visits := visits + [(index, piece)];
      }
    }
  }

  /** Every entry of `l` is an occupied square from `from` on, with the piece `at` reports. */
  predicate OccupiedEntries(p: Position, l: seq<(int, Piece)>, from: int)
    requires 0 <= from && p.ColorImpliesKind()
  {
    forall t :: 0 <= t < |l| ==> from <= l[t].0 < 64 && p.At(l[t].0) == Occupied(l[t].1)
  }

  /** Every occupied square from `from` on appears in `l`. */
  predicate CoversOccupied(p: Position, l: seq<(int, Piece)>, from: int)
  {
    forall k :: from <= k < 64 && k in p.ColorMask() ==> exists t :: 0 <= t < |l| && l[t].0 == k
  }

  lemma {:induction false} OccupiedFromEntries(p: Position, from: int)
    requires 0 <= from <= 64 && p.ColorImpliesKind()
    ensures OccupiedEntries(p, OccupiedFrom(p, from), from)
    decreases 64 - from
  {
    if from < 64 {
      OccupiedFromEntries(p, from + 1);
      match p.At(from) {
        case Empty =>
          assert OccupiedFrom(p, from) == OccupiedFrom(p, from + 1);
        case Occupied(piece) =>
          assert OccupiedFrom(p, from) == [(from, piece)] + OccupiedFrom(p, from + 1);
      }
    }
  }

  predicate IncreasingSquares(l: seq<(int, Piece)>)
  {
    forall a, b :: 0 <= a < b < |l| ==> l[a].0 < l[b].0
  }

  lemma {:induction false} OccupiedFromSorted(p: Position, from: int)
    requires 0 <= from <= 64 && p.ColorImpliesKind()
    ensures IncreasingSquares(OccupiedFrom(p, from))
    decreases 64 - from
  {
    if from < 64 {
      OccupiedFromEntries(p, from + 1);
      OccupiedFromSorted(p, from + 1);
      var rest := OccupiedFrom(p, from + 1);
      var l := OccupiedFrom(p, from);
      match p.At(from) {
        case Empty =>
          assert l == rest;
        case Occupied(piece) =>
          assert l == [(from, piece)] + rest;
          forall a, b | 0 <= a < b < |l| ensures l[a].0 < l[b].0 {
            assert l[b] == rest[b - 1];
            assert from + 1 <= rest[b - 1].0;
            if a > 0 {
              assert l[a] == rest[a - 1];
            }
          }
      }
    }
  }

  lemma {:induction false} OccupiedFromComplete(p: Position, from: int)
    requires 0 <= from <= 64 && p.ColorImpliesKind()
    ensures CoversOccupied(p, OccupiedFrom(p, from), from)
    decreases 64 - from
  {
    if from < 64 {
      OccupiedFromComplete(p, from + 1);
      var rest := OccupiedFrom(p, from + 1);
      var l := OccupiedFrom(p, from);
      forall k | from <= k < 64 && k in p.ColorMask()
        ensures exists t :: 0 <= t < |l| && l[t].0 == k
      {
        if k == from {
          var piece := p.At(from).piece;
          assert l == [(from, piece)] + rest;
          assert l[0].0 == k;
        } else {
          var t :| 0 <= t < |rest| && rest[t].0 == k;
          match p.At(from) {
            case Empty =>
              assert l == rest;
              assert l[t].0 == k;
            case Occupied(piece) =>
              assert l == [(from, piece)] + rest;
              assert l[t + 1].0 == k;
          }
        }
      }
    }
  }

  /**
   * `for_each_piece` calls back once per occupied square, in increasing index
   * order, with the piece `at` reports, and never for an empty square.
   */
  lemma PieceListFacts(p: Position)
    requires p.ColorImpliesKind()
    ensures OccupiedEntries(p, PieceList(p), 0)
    ensures IncreasingSquares(PieceList(p))
    ensures CoversOccupied(p, PieceList(p), 0)
  {
    OccupiedFromEntries(p, 0);
    OccupiedFromSorted(p, 0);
    OccupiedFromComplete(p, 0);
  }
}
