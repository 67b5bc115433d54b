/**
 * The move generator of the older application crate (src/valid_moves.rs),
 * which works on (row, column) squares. Its delta tables are written
 * (dx, dy) and applied as (row + dy, column + dx); it has no castling, no en
 * passant and no promotion, and it has its own legality filter, built on the
 * attack test of src/check_mate.rs.
 */
module LegacyValidMoves {
  import opened Wrappers
  import opened Pieces
  import opened Directions
  import opened Board
  import BoardUtils
  import LegacyMoves
  import opened Seqs
  import opened Grid
  import opened GridAttacks

  /** The tables of src/valid_moves.rs, as (dx, dy) pairs in source order. */
  const KnightDeltas: seq<Delta> := [(2, 1), (1, 2), (-1, 2), (-2, 1), (-2, -1), (-1, -2), (1, -2), (2, -1)]
  /** The king's table; the queen slides along the same list. */
  const KingDeltas: seq<Delta> := [(1, 0), (0, 1), (-1, 0), (0, -1), (1, 1), (1, -1), (-1, 1), (-1, -1)]
  const RookDeltas: seq<Delta> := [(1, 0), (0, 1), (-1, 0), (0, -1)]
  const BishopDeltas: seq<Delta> := [(1, 1), (1, -1), (-1, 1), (-1, -1)]

  /** A (dx, dy) table entry as a (row, column) step: dy changes the row, dx the column. */
  function Swap(d: Delta): (r: Delta)
    ensures UnitDirection(d) ==> UnitDirection(r)
  {
    (d.1, d.0)
  }

  /** The target square is an empty board square or holds a piece of the other colour. */
  predicate FreeOrOpponent(p: Position, color: Color, c: Coord)
    requires p.ColorImpliesKind()
  {
    EmptyAt(p, c) || OpponentAt(p, c, color)
  }

  // ---------------------------------------------------------------------------
  // Leapers (knight and king).
  // ---------------------------------------------------------------------------

  function LeaperStep(p: Position, c: Coord, color: Color, d: Delta): seq<GridMove>
    requires p.ColorImpliesKind()
  {
    var to := Shift(c, Swap(d));
    if FreeOrOpponent(p, color, to) then [GridMove(c, to)] else []
  }

  function LeaperSteps(p: Position, c: Coord, color: Color, directions: seq<Delta>): (r: seq<seq<GridMove>>)
    requires p.ColorImpliesKind()
    ensures |r| == |directions|
  {
    seq(|directions|, t requires 0 <= t < |directions| => LeaperStep(p, c, color, directions[t]))
  }

  /** The leaper's moves, one per usable delta, in table order. */
  function LeaperMoves(p: Position, c: Coord, color: Color, directions: seq<Delta>): seq<GridMove>
    requires p.ColorImpliesKind()
  {
    Concat(LeaperSteps(p, c, color, directions))
  }

  method LeaperValidMoves(p: Position, c: Coord, color: Color, directions: seq<Delta>) returns (moves: seq<GridMove>)
    requires p.ColorImpliesKind()
    ensures moves == LeaperMoves(p, c, color, directions)
  {
    ghost var parts := LeaperSteps(p, c, color, directions);
    moves := [];
    for t := 0 to |directions|
      invariant moves == Concat(parts[..t])
    {
      var (dx, dy) := directions[t];
      ConcatOneMore(parts, t);
      if EmptyAt(p, (c.0 + dy, c.1 + dx)) || OpponentAt(p, (c.0 + dy, c.1 + dx), color) {
        moves := moves + [GridMove(c, (c.0 + dy, c.1 + dx))];
      }
    }
    assert parts[..|directions|] == parts;
  }

  /** A leaper move goes from `c` to a free-or-opponent square one (swapped) table delta away. */
  predicate LeaperTarget(p: Position, c: Coord, color: Color, directions: seq<Delta>, m: GridMove)
    requires p.ColorImpliesKind()
  {
    && m.from == c
    && FreeOrOpponent(p, color, m.to)
    && exists t :: 0 <= t < |directions| && m.to == Shift(c, Swap(directions[t]))
  }

  lemma LeaperMovesIff(p: Position, c: Coord, color: Color, directions: seq<Delta>, m: GridMove)
    requires p.ColorImpliesKind()
    ensures m in LeaperMoves(p, c, color, directions) <==> LeaperTarget(p, c, color, directions, m)
  {
    var parts := LeaperSteps(p, c, color, directions);
    ConcatMember(parts, m);
    forall t | 0 <= t < |directions|
      ensures m in parts[t] <==>
        (m.from == c && FreeOrOpponent(p, color, m.to) && m.to == Shift(c, Swap(directions[t])))
    {
      assert parts[t] == LeaperStep(p, c, color, directions[t]);
    }
  }

  method KnightValidMoves(p: Position, c: Coord, color: Color) returns (moves: seq<GridMove>)
    requires p.ColorImpliesKind()
    ensures moves == LeaperMoves(p, c, color, KnightDeltas)
  {
    moves := LeaperValidMoves(p, c, color, KnightDeltas);
  }

  method KingValidMoves(p: Position, c: Coord, color: Color) returns (moves: seq<GridMove>)
    requires p.ColorImpliesKind()
    ensures moves == LeaperMoves(p, c, color, KingDeltas)
  {
    moves := LeaperValidMoves(p, c, color, KingDeltas);
  }

  // ---------------------------------------------------------------------------
  // Sliders (rook, bishop, queen): the clear squares of each ray, then the
  // blocking square when an opponent's piece is on it.
  // ---------------------------------------------------------------------------

  /** `for cur_dist in 1..stop`: the moves to the squares 1 .. stop - 1 steps away. */
  function QuietRayMoves(c: Coord, d: Delta, stop: int): (r: seq<GridMove>)
    requires 1 <= stop
    ensures |r| == stop - 1
  {
    seq(stop - 1, k requires 0 <= k < stop - 1 => GridMove(c, RaySquare(c, d, k + 1)))
  }

  lemma QuietRayMovesStep(c: Coord, d: Delta, stop: int)
    requires 1 <= stop
    ensures QuietRayMoves(c, d, stop + 1) == QuietRayMoves(c, d, stop) + [GridMove(c, RaySquare(c, d, stop))]
  {
    var a := QuietRayMoves(c, d, stop + 1);
    var b := QuietRayMoves(c, d, stop) + [GridMove(c, RaySquare(c, d, stop))];
    forall k | 0 <= k < stop
      ensures a[k] == b[k]
    {
    }
  }

  /** The moves along the (row, column) step `d`. */
  function RayMoves(p: Position, c: Coord, color: Color, d: Delta): seq<GridMove>
    requires p.ColorImpliesKind() && UnitDirection(d)
  {
    var stop := RayStop(p, c, d, 1);
    var blocker := RaySquare(c, d, stop);
    QuietRayMoves(c, d, stop) + if OpponentAt(p, blocker, color) then [GridMove(c, blocker)] else []
  }

  function SliderRays(p: Position, c: Coord, color: Color, directions: seq<Delta>): (r: seq<seq<GridMove>>)
    requires p.ColorImpliesKind() && AllUnit(directions)
    ensures |r| == |directions|
  {
    seq(|directions|, t requires 0 <= t < |directions| => RayMoves(p, c, color, Swap(directions[t])))
  }

  /** The slider's moves, ray after ray in table order. */
  function SliderMoves(p: Position, c: Coord, color: Color, directions: seq<Delta>): seq<GridMove>
    requires p.ColorImpliesKind() && AllUnit(directions)
  {
    Concat(SliderRays(p, c, color, directions))
  }

  /** One ray of `slider_valid_moves`: walk to the blocker, add the quiet moves, then the capture. */
  method RayValidMoves(p: Position, c: Coord, color: Color, d: Delta) returns (moves: seq<GridMove>)
    requires p.ColorImpliesKind() && UnitDirection(d)
    ensures moves == RayMoves(p, c, color, d)
  {
    var dist := WalkToBlocker(p, c, d);
    moves := [];
    for curDist := 1 to dist
      invariant moves == QuietRayMoves(c, d, curDist)
    {
      QuietRayMovesStep(c, d, curDist);
      moves := moves + [GridMove(c, RaySquare(c, d, curDist))];
    }
    if OpponentAt(p, RaySquare(c, d, dist), color) {
      moves := moves + [GridMove(c, RaySquare(c, d, dist))];
    }
  }

  method SliderValidMoves(p: Position, c: Coord, color: Color, directions: seq<Delta>) returns (moves: seq<GridMove>)
    requires p.ColorImpliesKind() && AllUnit(directions)
    ensures moves == SliderMoves(p, c, color, directions)
  {
    ghost var rays := SliderRays(p, c, color, directions);
    moves := [];
    for t := 0 to |directions|
      invariant moves == Concat(rays[..t])
    {
      var (dx, dy) := directions[t];
      ConcatOneMore(rays, t);
      var ray := RayValidMoves(p, c, color, (dy, dx));
      moves := moves + ray;
    }
    assert rays[..|directions|] == rays;
  }

  /** Every square strictly between `c` and the `k`-th square along `d` is an empty board square. */
  predicate ClearBefore(p: Position, c: Coord, d: Delta, k: int)
    requires p.ColorImpliesKind()
  {
    1 <= k && forall j :: 1 <= j < k ==> EmptyAt(p, RaySquare(c, d, j))
  }

  /** A slider move along `d`: to a free-or-opponent square of the ray with the way to it clear. */
  ghost predicate RayTarget(p: Position, c: Coord, color: Color, d: Delta, m: GridMove)
    requires p.ColorImpliesKind()
  {
    && m.from == c
    && FreeOrOpponent(p, color, m.to)
    && exists k :: ClearBefore(p, c, d, k) && m.to == RaySquare(c, d, k)
  }

  lemma RayMovesSound(p: Position, c: Coord, color: Color, d: Delta, m: GridMove)
    requires p.ColorImpliesKind() && UnitDirection(d) && m in RayMoves(p, c, color, d)
    ensures RayTarget(p, c, color, d, m)
  {
    var stop := RayStop(p, c, d, 1);
    var quiet := QuietRayMoves(c, d, stop);
    RayFirstBlocker(p, c, d);
    if m in quiet {
      var i :| 0 <= i < |quiet| && quiet[i] == m;
      RayStopClear(p, c, d, 1, i + 1);
      assert ClearBefore(p, c, d, i + 1);
    } else {
      assert ClearBefore(p, c, d, stop);
    }
  }

  lemma RayMovesComplete(p: Position, c: Coord, color: Color, d: Delta, m: GridMove, k: int)
    requires p.ColorImpliesKind() && UnitDirection(d)
    requires m.from == c && FreeOrOpponent(p, color, m.to) && ClearBefore(p, c, d, k) && m.to == RaySquare(c, d, k)
    ensures m in RayMoves(p, c, color, d)
  {
    ClearBeforeReachesBlocker(p, c, d, k);
    if k < RayStop(p, c, d, 1) {
      RayQuietIsMove(p, c, color, d, k);
    } else {
      RayCaptureIsMove(p, c, color, d, m);
    }
  }

  /** Each square before the one that stops the ray is a quiet move of the ray. */
  lemma RayQuietIsMove(p: Position, c: Coord, color: Color, d: Delta, k: int)
    requires p.ColorImpliesKind() && UnitDirection(d) && 1 <= k < RayStop(p, c, d, 1)
    ensures GridMove(c, RaySquare(c, d, k)) in RayMoves(p, c, color, d)
  {
    assert QuietRayMoves(c, d, RayStop(p, c, d, 1))[k - 1] == GridMove(c, RaySquare(c, d, k));
  }

  /** The move onto the square that stops the ray is a move of the ray when that square is free or an opponent's. */
  lemma RayCaptureIsMove(p: Position, c: Coord, color: Color, d: Delta, m: GridMove)
    requires p.ColorImpliesKind() && UnitDirection(d)
    requires m.from == c && FreeOrOpponent(p, color, m.to) && m.to == RaySquare(c, d, RayStop(p, c, d, 1))
    ensures m in RayMoves(p, c, color, d)
  {
    var blocker := RaySquare(c, d, RayStop(p, c, d, 1));
    assert OpponentAt(p, blocker, color);
    assert m == GridMove(c, blocker);
  }

  /** A clear way can reach no further than the first square that is off the board or occupied. */
  lemma ClearBeforeReachesBlocker(p: Position, c: Coord, d: Delta, k: int)
    requires p.ColorImpliesKind() && UnitDirection(d) && ClearBefore(p, c, d, k)
    ensures k <= RayStop(p, c, d, 1)
  {
  }

  /**
   * A ray's moves are exactly the moves to free-or-opponent squares along
   * it with every square before them empty: a slider never jumps a piece
   * and never takes its own.
   */
  lemma RayMovesIff(p: Position, c: Coord, color: Color, d: Delta, m: GridMove)
    requires p.ColorImpliesKind() && UnitDirection(d)
    ensures m in RayMoves(p, c, color, d) <==> RayTarget(p, c, color, d, m)
  {
    if m in RayMoves(p, c, color, d) {
      RayMovesSound(p, c, color, d, m);
    }
    if RayTarget(p, c, color, d, m) {
      var k :| ClearBefore(p, c, d, k) && m.to == RaySquare(c, d, k);
      RayMovesComplete(p, c, color, d, m, k);
    }
  }

  /** The slider's moves are exactly the moves one of its (swapped) rays allows. */
  lemma SliderMovesIff(p: Position, c: Coord, color: Color, directions: seq<Delta>, m: GridMove)
    requires p.ColorImpliesKind() && AllUnit(directions)
    ensures m in SliderMoves(p, c, color, directions) <==>
      exists t :: 0 <= t < |directions| && RayTarget(p, c, color, Swap(directions[t]), m)
  {
    var rays := SliderRays(p, c, color, directions);
    ConcatMember(rays, m);
    forall t | 0 <= t < |directions|
      ensures m in rays[t] <==> RayTarget(p, c, color, Swap(directions[t]), m)
    {
      RayMovesIff(p, c, color, Swap(directions[t]), m);
    }
  }

  lemma TablesAreUnit()
    ensures AllUnit(RookDeltas) && AllUnit(BishopDeltas) && AllUnit(KingDeltas)
  {
  }

  method RookValidMoves(p: Position, c: Coord, color: Color) returns (moves: seq<GridMove>)
    requires p.ColorImpliesKind()
    ensures AllUnit(RookDeltas) && moves == SliderMoves(p, c, color, RookDeltas)
  {
    TablesAreUnit();
    moves := SliderValidMoves(p, c, color, RookDeltas);
  }

  method BishopValidMoves(p: Position, c: Coord, color: Color) returns (moves: seq<GridMove>)
    requires p.ColorImpliesKind()
    ensures AllUnit(BishopDeltas) && moves == SliderMoves(p, c, color, BishopDeltas)
  {
    TablesAreUnit();
    moves := SliderValidMoves(p, c, color, BishopDeltas);
  }

  method QueenValidMoves(p: Position, c: Coord, color: Color) returns (moves: seq<GridMove>)
    requires p.ColorImpliesKind()
    ensures AllUnit(KingDeltas) && moves == SliderMoves(p, c, color, KingDeltas)
  {
    TablesAreUnit();
    moves := SliderValidMoves(p, c, color, KingDeltas);
  }

  // ---------------------------------------------------------------------------
  // Pawns: single push, double push from the initial row, diagonal takes.
  // ---------------------------------------------------------------------------

  /** The row a pawn of `color` advances by. */
  function PawnStep(color: Color): int
  {
    match color
    case White => 1
    case Black => -1
  }

  function InitialRow(color: Color): int
  {
    match color
    case White => 1
    case Black => 6
  }

  function PawnPushes(p: Position, c: Coord, color: Color): seq<GridMove>
    requires p.ColorImpliesKind()
  {
    var single := (c.0 + PawnStep(color), c.1);
    var double := (c.0 + 2 * PawnStep(color), c.1);
    if !EmptyAt(p, single) then []
    else [GridMove(c, single)] + if EmptyAt(p, double) && c.0 == InitialRow(color) then [GridMove(c, double)] else []
  }

  function PawnTake(p: Position, c: Coord, color: Color, fileStep: int): seq<GridMove>
    requires p.ColorImpliesKind()
  {
    var to := (c.0 + PawnStep(color), c.1 + fileStep);
    if OpponentAt(p, to, color) then [GridMove(c, to)] else []
  }

  /** The pushes, then the take towards column j + 1, then the take towards column j - 1. */
  function PawnMoves(p: Position, c: Coord, color: Color): seq<GridMove>
    requires p.ColorImpliesKind()
  {
    PawnPushes(p, c, color) + PawnTake(p, c, color, 1) + PawnTake(p, c, color, -1)
  }

  method PawnValidMoves(p: Position, c: Coord, color: Color) returns (moves: seq<GridMove>)
    requires p.ColorImpliesKind()
    ensures moves == PawnMoves(p, c, color)
  {
    var (i, j) := c;
    moves := [];
    var dir := match color case White => 1 case Black => -1;
    var initialRow := match color case White => 1 case Black => 6;
    assert dir == PawnStep(color) && initialRow == InitialRow(color);
    if EmptyAt(p, (i + dir, j)) {
      moves := moves + [GridMove(c, (i + dir, j))];
      if EmptyAt(p, (i + 2 * dir, j)) && i == initialRow {
        moves := moves + [GridMove(c, (i + 2 * dir, j))];
      }
    }
    assert moves == PawnPushes(p, c, color);
    if OpponentAt(p, (i + dir, j + 1), color) {
      moves := moves + [GridMove(c, (i + dir, j + 1))];
    }
    assert moves == PawnPushes(p, c, color) + PawnTake(p, c, color, 1);
    if OpponentAt(p, (i + dir, j - 1), color) {
      moves := moves + [GridMove(c, (i + dir, j - 1))];
    }
  }

  /**
   * A pawn move: one row forward onto an empty square; two rows forward from
   * the initial row with both squares empty; or one row forward and one
   * column aside onto a piece of the other colour.
   */
  predicate PawnTarget(p: Position, c: Coord, color: Color, to: Coord)
    requires p.ColorImpliesKind()
  {
    var dir := PawnStep(color);
    || (to == (c.0 + dir, c.1) && EmptyAt(p, to))
    || (to == (c.0 + 2 * dir, c.1) && c.0 == InitialRow(color) && EmptyAt(p, (c.0 + dir, c.1)) && EmptyAt(p, to))
    || (to.0 == c.0 + dir && (to.1 == c.1 + 1 || to.1 == c.1 - 1) && OpponentAt(p, to, color))
  }

  lemma PawnMovesIff(p: Position, c: Coord, color: Color, m: GridMove)
    requires p.ColorImpliesKind()
    ensures m in PawnMoves(p, c, color) <==> m.from == c && PawnTarget(p, c, color, m.to)
  {
    assert m in PawnMoves(p, c, color) <==>
      m in PawnPushes(p, c, color) || m in PawnTake(p, c, color, 1) || m in PawnTake(p, c, color, -1);
  }

  // ---------------------------------------------------------------------------
  // Dispatch and all pseudo-legal moves of one side.
  // ---------------------------------------------------------------------------

  function PieceMoves(p: Position, c: Coord, piece: Piece): seq<GridMove>
    requires p.ColorImpliesKind()
  {
    TablesAreUnit();
    match piece.kind
    case Pawn => PawnMoves(p, c, piece.color)
    case Rook => SliderMoves(p, c, piece.color, RookDeltas)
    case Bishop => SliderMoves(p, c, piece.color, BishopDeltas)
    case Queen => SliderMoves(p, c, piece.color, KingDeltas)
    case Knight => LeaperMoves(p, c, piece.color, KnightDeltas)
    case King => LeaperMoves(p, c, piece.color, KingDeltas)
  }

  method PieceValidMoves(p: Position, c: Coord, piece: Piece) returns (moves: seq<GridMove>)
    requires p.ColorImpliesKind()
    ensures moves == PieceMoves(p, c, piece)
  {
    match piece.kind {
      case Pawn => moves := PawnValidMoves(p, c, piece.color);
      case Rook => moves := RookValidMoves(p, c, piece.color);
      case Bishop => moves := BishopValidMoves(p, c, piece.color);
      case Queen => moves := QueenValidMoves(p, c, piece.color);
      case Knight => moves := KnightValidMoves(p, c, piece.color);
      case King => moves := KingValidMoves(p, c, piece.color);
    }
  }

  /**
   * Every move of a piece starts on its square and ends on a board square
   * that is empty or holds a piece of the other colour.
   */
  lemma PieceMovesTargets(p: Position, c: Coord, piece: Piece, m: GridMove)
    requires p.ColorImpliesKind() && m in PieceMoves(p, c, piece)
    ensures m.from == c && OnGrid(m.to) && FreeOrOpponent(p, piece.color, m.to)
  {
    TablesAreUnit();
    match piece.kind {
      case Pawn => PawnMovesIff(p, c, piece.color, m);
      case Rook => SliderMovesIff(p, c, piece.color, RookDeltas, m);
      case Bishop => SliderMovesIff(p, c, piece.color, BishopDeltas, m);
      case Queen => SliderMovesIff(p, c, piece.color, KingDeltas, m);
      case Knight => LeaperMovesIff(p, c, piece.color, KnightDeltas, m);
      case King => LeaperMovesIff(p, c, piece.color, KingDeltas, m);
    }
  }

  predicate IndicesOnBoard(l: seq<(int, Piece)>)
  {
    forall t :: 0 <= t < |l| ==> 0 <= l[t].0 < 64
  }

  /** Per visited square, the moves of its piece when it has colour `color`, and nothing otherwise. */
  function PossibleParts(p: Position, color: Color, l: seq<(int, Piece)>): (r: seq<seq<GridMove>>)
    requires p.ColorImpliesKind() && IndicesOnBoard(l)
    ensures |r| == |l|
  {
    seq(|l|, t requires 0 <= t < |l| => if l[t].1.color == color then PieceMoves(p, CoordOf(l[t].0), l[t].1) else [])
  }

  function PossibleMoves(p: Position, color: Color): seq<GridMove>
    requires p.ColorImpliesKind()
  {
    BoardUtils.PieceListFacts(p);
    Concat(PossibleParts(p, color, BoardUtils.PieceList(p)))
  }

  method AllPossibleMoves(p: Position, color: Color) returns (moves: seq<GridMove>)
    requires p.ColorImpliesKind()
    ensures moves == PossibleMoves(p, color)
  {
    var visits := BoardUtils.ForEachPiece(p);
    BoardUtils.PieceListFacts(p);
    ghost var parts := PossibleParts(p, color, visits);
    moves := [];
    for t := 0 to |visits|
      invariant moves == Concat(parts[..t])
    {
      var (index, piece) := visits[t];
      ConcatOneMore(parts, t);
      if piece.color == color {
        var validMoves := PieceValidMoves(p, CoordOf(index), piece);
        moves := moves + validMoves;
      }
    }
    assert parts[..|visits|] == parts;
  }

  /** The round trip of a board square through its bit index. */
  lemma CoordOfIndexOf(c: Coord)
    requires OnGrid(c)
    ensures CoordOf(IndexOf(c)) == c
  {
  }

  /**
   * The side's pseudo-legal moves are exactly the moves of its pieces:
   * nothing from an empty square, nothing of the other colour.
   */
  lemma PossibleMovesIff(p: Position, color: Color, m: GridMove)
    requires p.ColorImpliesKind()
    ensures m in PossibleMoves(p, color) <==>
      (PieceAt(p, m.from).Some? && PieceAt(p, m.from).value.color == color &&
       m in PieceMoves(p, m.from, PieceAt(p, m.from).value))
  {
    var l := BoardUtils.PieceList(p);
    BoardUtils.PieceListFacts(p);
    var parts := PossibleParts(p, color, l);
    ConcatMember(parts, m);
    if m in PossibleMoves(p, color) {
      var t :| 0 <= t < |parts| && m in parts[t];
      PieceMovesTargets(p, CoordOf(l[t].0), l[t].1, m);
      assert PieceAt(p, m.from) == Some(l[t].1);
    }
    if PieceAt(p, m.from).Some? && PieceAt(p, m.from).value.color == color &&
       m in PieceMoves(p, m.from, PieceAt(p, m.from).value)
    {
      var k := IndexOf(m.from);
      assert k in p.ColorMask();
      var t :| 0 <= t < |l| && l[t].0 == k;
      CoordOfIndexOf(m.from);
      assert m in parts[t];
    }
  }

  // ---------------------------------------------------------------------------
  // The legality filter.
  // ---------------------------------------------------------------------------

  /**
   * The filter's verdict on one move: None when the source panics (a square
   * off the board, an empty source, a move `move_piece` cannot apply),
   * otherwise whether the mover's king is unattacked after the move.
   */
  function KeepMove(p: Position, m: GridMove): Option<bool>
    requires p.ColorImpliesKind()
  {
    if !OnGrid(m.from) || !OnGrid(m.to) then None
    else
      match PieceAt(p, m.from)
      case None => None
      case Some(piece) =>
        match LegacyMoves.AfterMovePiece(IndexMove(m), p)
        case Err(_) => None
        case Ok(after) =>
          LegacyMoves.MovePieceKeepsCoherent(IndexMove(m), p);
          Some(!IsSquareCheckedSpec(after, KingSquare(after, piece.color), piece.color))
  }

  function Verdicts(p: Position, moves: seq<GridMove>): (r: seq<Option<bool>>)
    requires p.ColorImpliesKind()
    ensures |r| == |moves|
  {
    seq(|moves|, i requires 0 <= i < |moves| => KeepMove(p, moves[i]))
  }

  /** The filtered list, or None when some move panics. */
  function FilteredMoves(p: Position, moves: seq<GridMove>): Option<seq<GridMove>>
    requires p.ColorImpliesKind()
  {
    Select(moves, Verdicts(p, moves))
  }

  /** The filter's closure: read the source piece, clone, apply the move through its UCI text, test the king. */
  method KeepsKingSafe(p: Position, mov: GridMove) returns (r: Option<bool>)
    requires p.ColorImpliesKind()
    ensures r == KeepMove(p, mov)
  {
    if !OnGrid(mov.from) || !OnGrid(mov.to) {
      return None;
    }
    var source := PieceAt(p, mov.from);
    if source.None? {
      return None;
    }
    var piece := source.value;
    var boardAfterMove := new ChessBoard.FromPosition(p);
    var ok := LegacyMoves.MovePieceUci(boardAfterMove, GridUciString(mov));
    if !ok {
      return None;
    }
    LegacyMoves.MovePieceKeepsCoherent(IndexMove(mov), p);
    var checked := IsKingChecked(boardAfterMove.State(), piece.color);
    r := Some(!checked);
  }

  method FilterKingGoingUnderCheck(p: Position, moves: seq<GridMove>) returns (r: Option<seq<GridMove>>)
    requires p.ColorImpliesKind()
    ensures r == FilteredMoves(p, moves)
  {
    ghost var verdicts := Verdicts(p, moves);
    var kept := [];
    for i := 0 to |moves|
      invariant Select(moves[..i], verdicts[..i]) == Some(kept)
    {
      var keep := KeepsKingSafe(p, moves[i]);
      assert verdicts[i] == keep;
      if keep.None? {
        SelectFailsFrom(moves, verdicts, i, |moves|);
        assert moves[..|moves|] == moves && verdicts[..|moves|] == verdicts;
        return None;
      }
      SelectOneMore(moves, verdicts, i, kept);
      if keep.value {
        kept := kept + [moves[i]];
      }
    }
    assert moves[..|moves|] == moves && verdicts[..|moves|] == verdicts;
    r := Some(kept);
  }

  lemma VerdictOf(p: Position, moves: seq<GridMove>, i: nat)
    requires p.ColorImpliesKind() && i < |moves|
    ensures Verdicts(p, moves)[i] == KeepMove(p, moves[i])
  {
  }

  /** The filter succeeds exactly when no move panics. */
  lemma FilteredMovesDefined(p: Position, moves: seq<GridMove>)
    requires p.ColorImpliesKind()
    ensures FilteredMoves(p, moves).Some? <==> forall m :: m in moves ==> KeepMove(p, m).Some?
  {
    var verdicts := Verdicts(p, moves);
    SelectDefined(moves, verdicts);
    if forall i :: 0 <= i < |verdicts| ==> verdicts[i].Some? {
      forall m | m in moves
        ensures KeepMove(p, m).Some?
      {
        var i :| 0 <= i < |moves| && moves[i] == m;
        VerdictOf(p, moves, i);
      }
    }
  }

  lemma FilteredMoveWasKept(p: Position, moves: seq<GridMove>, m: GridMove)
    requires p.ColorImpliesKind() && FilteredMoves(p, moves).Some? && m in FilteredMoves(p, moves).value
    ensures m in moves && KeepMove(p, m) == Some(true)
  {
    var verdicts := Verdicts(p, moves);
    SelectIff(moves, verdicts, m);
    var i :| 0 <= i < |moves| && moves[i] == m && verdicts[i] == Some(true);
    VerdictOf(p, moves, i);
  }

  lemma SafeMoveIsKept(p: Position, moves: seq<GridMove>, m: GridMove)
    requires p.ColorImpliesKind() && FilteredMoves(p, moves).Some? && m in moves && KeepMove(p, m) == Some(true)
    ensures m in FilteredMoves(p, moves).value
  {
    var verdicts := Verdicts(p, moves);
    var i :| 0 <= i < |moves| && moves[i] == m;
    VerdictOf(p, moves, i);
    SelectKeeps(moves, verdicts, i);
  }

  /**
   * No generated move makes the filter panic: it starts on a square holding
   * a piece, both squares are on the board, and a pawn lands a row ahead, so
   * the square behind an en-passant target it may land on is on the board.
   */
  lemma GeneratedMoveKept(p: Position, color: Color, m: GridMove)
    requires p.ColorImpliesKind() && m in PossibleMoves(p, color)
    ensures KeepMove(p, m).Some?
  {
    PossibleMovesIff(p, color, m);
    var piece := PieceAt(p, m.from).value;
    PieceMovesTargets(p, m.from, piece, m);
    if piece.kind == Pawn {
      PawnMovesAhead(p, m.from, piece.color, m);
    }
    LegacyMoves.MovePieceSucceeds(IndexMove(m), p);
    KeepMoveDefined(p, m);
  }

  /** A pawn moves one or two rows ahead: White never lands on row 0, Black never on row 7. */
  lemma PawnMovesAhead(p: Position, c: Coord, color: Color, m: GridMove)
    requires p.ColorImpliesKind() && OnGrid(c) && m in PawnMoves(p, c, color) && OnGrid(m.to)
    ensures color == White ==> IndexOf(m.to) >= 8
    ensures color == Black ==> IndexOf(m.to) < 56
  {
    PawnMovesIff(p, c, color, m);
  }

  /** The verdict is defined once both squares are on the board, the source holds a piece and the move applies. */
  lemma KeepMoveDefined(p: Position, m: GridMove)
    requires p.ColorImpliesKind() && OnGrid(m.from) && OnGrid(m.to) && PieceAt(p, m.from).Some?
    requires LegacyMoves.AfterMovePiece(IndexMove(m), p).Ok?
    ensures KeepMove(p, m).Some?
  {
  }

  /** The filter never panics on the side's pseudo-legal moves. */
  lemma FilterTotal(p: Position, color: Color)
    requires p.ColorImpliesKind()
    ensures FilteredMoves(p, PossibleMoves(p, color)).Some?
  {
    forall m | m in PossibleMoves(p, color)
      ensures KeepMove(p, m).Some?
    {
      GeneratedMoveKept(p, color, m);
    }
    FilteredMovesDefined(p, PossibleMoves(p, color));
  }

  /** The filter keeps exactly the moves after which the mover's king is safe. */
  lemma FilteredMovesIff(p: Position, moves: seq<GridMove>, m: GridMove)
    requires p.ColorImpliesKind() && FilteredMoves(p, moves).Some?
    ensures m in FilteredMoves(p, moves).value <==> m in moves && KeepMove(p, m) == Some(true)
  {
    if m in FilteredMoves(p, moves).value {
      FilteredMoveWasKept(p, moves, m);
    }
    if m in moves && KeepMove(p, m) == Some(true) {
      SafeMoveIsKept(p, moves, m);
    }
  }

  /** A kept move is applied from an occupied board square and leaves the mover's king unattacked. */
  lemma KeptMoveLeavesKingSafe(p: Position, moves: seq<GridMove>, m: GridMove)
    requires p.ColorImpliesKind() && FilteredMoves(p, moves).Some? && m in FilteredMoves(p, moves).value
    ensures OnGrid(m.from) && OnGrid(m.to) && PieceAt(p, m.from).Some?
    ensures LegacyMoves.AfterMovePiece(IndexMove(m), p).Ok?
    ensures LegacyMoves.AfterMovePiece(IndexMove(m), p).value.ColorImpliesKind()
    ensures var color := PieceAt(p, m.from).value.color;
      var after := LegacyMoves.AfterMovePiece(IndexMove(m), p).value;
      !IsSquareCheckedSpec(after, KingSquare(after, color), color)
  {
    FilteredMovesIff(p, moves, m);
    LegacyMoves.MovePieceKeepsCoherent(IndexMove(m), p);
  }

  // ---------------------------------------------------------------------------
  // All legal moves (no castling in this generator).
  // ---------------------------------------------------------------------------

  function AllValidMovesOf(p: Position, color: Color): Option<seq<GridMove>>
    requires p.ColorImpliesKind()
  {
    FilteredMoves(p, PossibleMoves(p, color))
  }

  method AllValidMoves(p: Position, color: Color) returns (r: Option<seq<GridMove>>)
    requires p.ColorImpliesKind()
    ensures r == AllValidMovesOf(p, color) && r.Some?
  {
    FilterTotal(p, color);
    var moves := AllPossibleMoves(p, color);
    r := FilterKingGoingUnderCheck(p, moves);
  }

  /** The legal moves are the side's pseudo-legal moves after which its king is safe. */
  lemma ValidMovesIff(p: Position, color: Color, m: GridMove)
    requires p.ColorImpliesKind()
    ensures AllValidMovesOf(p, color).Some?
    ensures m in AllValidMovesOf(p, color).value <==>
      m in PossibleMoves(p, color) && KeepMove(p, m) == Some(true)
  {
    FilterTotal(p, color);
    FilteredMovesIff(p, PossibleMoves(p, color), m);
  }
}
