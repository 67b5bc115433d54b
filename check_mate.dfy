/**
 * The attack tests of the older application crate on (row, column) squares
 * (src/check_mate.rs): sliders along the king table, where only the first
 * occupied square of a ray counts, knights and kings one delta away, and
 * pawns one row towards the attacked side.
 */
module GridAttacks {
  import opened Wrappers
  import opened Pieces
  import opened Directions
  import opened Board
  import opened BoardUtils
  import opened Grid

  /** `find_king`: the lowest king square of `color` as (index / 8, index % 8); (8, 0) when there is none. */
  function KingSquare(p: Position, color: Color): (r: Coord)
    ensures FindKing(p, color) < 64 ==> OnGrid(r) && IndexOf(r) == FindKing(p, color)
    ensures FindKing(p, color) == 64 ==> r == (8, 0)
  {
    var k := FindKing(p, color);
    (k / 8, k % 8)
  }

  // ---------------------------------------------------------------------------
  // Knights and kings.
  // ---------------------------------------------------------------------------

  /** `is_square_checked_by_knight`. */
  predicate CheckedByKnight(p: Position, c: Coord, color: Color)
    requires p.ColorImpliesKind()
  {
    Grid.ContainsPieceInAnyDirection(p, c, Piece(Knight, Not(color)), KnightDirections)
  }

  /** `is_square_checked_by_king`. */
  predicate CheckedByKing(p: Position, c: Coord, color: Color)
    requires p.ColorImpliesKind()
  {
    Grid.ContainsPieceInAnyDirection(p, c, Piece(King, Not(color)), KingDirections)
  }

  /** A knight or king of the other colour one delta of its table away, and nothing else, attacks. */
  lemma LeaperChecksIff(p: Position, c: Coord, color: Color)
    requires p.ColorImpliesKind()
    ensures CheckedByKnight(p, c, color) <==>
      exists t :: 0 <= t < |KnightDirections| && PieceAt(p, Shift(c, KnightDirections[t])) == Some(Piece(Knight, Not(color)))
    ensures CheckedByKing(p, c, color) <==>
      exists t :: 0 <= t < |KingDirections| && PieceAt(p, Shift(c, KingDirections[t])) == Some(Piece(King, Not(color)))
  {
    Grid.ContainsPieceInAnyDirectionIff(p, c, Piece(Knight, Not(color)), KnightDirections);
    Grid.ContainsPieceInAnyDirectionIff(p, c, Piece(King, Not(color)), KingDirections);
  }

  // ---------------------------------------------------------------------------
  // Sliders.
  // ---------------------------------------------------------------------------

  /** The square `dist` steps along `d` from `c`. */
  function RaySquare(c: Coord, d: Delta, dist: int): Coord
  {
    (c.0 + d.0 * dist, c.1 + d.1 * dist)
  }

  predicate AllUnit(directions: seq<Delta>)
  {
    forall t :: 0 <= t < |directions| ==> UnitDirection(directions[t])
  }

  /** A one-square ray that is on the board at its first step leaves the board within eight steps. */
  lemma RayBound(c: Coord, d: Delta, dist: int)
    requires UnitDirection(d) && 1 <= dist && OnGrid(RaySquare(c, d, dist))
    requires dist == 1 || OnGrid(RaySquare(c, d, 1))
    ensures dist <= 8
  {
    if d.0 == 1 {
      assert RaySquare(c, d, dist).0 == c.0 + dist;
    } else if d.0 == -1 {
      assert RaySquare(c, d, dist).0 == c.0 - dist;
    } else if d.1 == 1 {
      assert RaySquare(c, d, dist).1 == c.1 + dist;
    } else {
      assert RaySquare(c, d, dist).1 == c.1 - dist;
    }
  }

  /**
   * The value of `dist` after the `while` loop: the first distance from
   * `dist` on whose square is not an empty board square.
   */
  function RayStop(p: Position, c: Coord, d: Delta, dist: int): (r: int)
    requires p.ColorImpliesKind() && UnitDirection(d) && 1 <= dist <= 9
    requires dist == 1 || OnGrid(RaySquare(c, d, 1))
    ensures dist <= r <= 9 && !EmptyAt(p, RaySquare(c, d, r))
    decreases 9 - dist
  {
    if EmptyAt(p, RaySquare(c, d, dist)) then
      RayBound(c, d, dist);
      RayStop(p, c, d, dist + 1)
    else
      dist
  }

  /** Every square before the stop is an empty board square. */
  lemma {:induction false} RayStopClear(p: Position, c: Coord, d: Delta, dist: int, k: int)
    requires p.ColorImpliesKind() && UnitDirection(d) && 1 <= dist <= 9
    requires dist == 1 || OnGrid(RaySquare(c, d, 1))
    requires dist <= k < RayStop(p, c, d, dist)
    ensures EmptyAt(p, RaySquare(c, d, k))
    decreases k - dist
  {
    if k > dist {
      RayBound(c, d, dist);
      RayStopClear(p, c, d, dist + 1, k);
    }
  }

  /** A rook attacks along a straight ray, a bishop along a diagonal, a queen along both. */
  predicate SliderAttacks(kind: PieceKind, d: Delta)
  {
    || (kind == Rook && d.0 * d.1 == 0)
    || (kind == Bishop && d.0 * d.1 != 0)
    || kind == Queen
  }

  /** The first occupied square of the ray holds a slider of the other colour attacking along it. */
  predicate RayChecked(p: Position, c: Coord, color: Color, d: Delta)
    requires p.ColorImpliesKind() && UnitDirection(d)
  {
    match PieceAt(p, RaySquare(c, d, RayStop(p, c, d, 1)))
    case None => false
    case Some(piece) => piece.color != color && SliderAttacks(piece.kind, d)
  }

  /** Some ray of `directions` is checked. */
  predicate SliderChecked(p: Position, c: Coord, color: Color, directions: seq<Delta>)
    requires p.ColorImpliesKind() && AllUnit(directions)
  {
    |directions| > 0 && (RayChecked(p, c, color, directions[0]) || SliderChecked(p, c, color, directions[1..]))
  }

  /** `is_square_checked_by_slider` looks along the king table. */
  predicate CheckedBySlider(p: Position, c: Coord, color: Color)
    requires p.ColorImpliesKind()
  {
    KingDirectionsUnit();
    SliderChecked(p, c, color, KingDirections)
  }

  /** The `while within_bounds_and_empty(...)` loop: it stops on the first square that is off the board or occupied. */
  method WalkToBlocker(p: Position, c: Coord, d: Delta) returns (dist: int)
    requires p.ColorImpliesKind() && UnitDirection(d)
    ensures dist == RayStop(p, c, d, 1)
  {
    dist := 1;
    while EmptyAt(p, RaySquare(c, d, dist))
      invariant 1 <= dist <= 9 && (dist == 1 || OnGrid(RaySquare(c, d, 1)))
      invariant RayStop(p, c, d, dist) == RayStop(p, c, d, 1)
      decreases 9 - dist
    {
      RayBound(c, d, dist);
      dist := dist + 1;
    }
  }

  /** The walk along one ray: step while the square is an empty board square, then test the blocker. */
  method RayWalk(p: Position, c: Coord, color: Color, d: Delta) returns (r: bool)
    requires p.ColorImpliesKind() && UnitDirection(d)
    ensures r == RayChecked(p, c, color, d)
  {
    var dist := WalkToBlocker(p, c, d);
    r := false;
    match PieceAt(p, RaySquare(c, d, dist)) {
      case None =>
      case Some(piece) =>
        if piece.color != color {
          match piece.kind {
            case Rook =>
              r := d.0 * d.1 == 0;
            case Bishop =>
              r := d.0 * d.1 != 0;
            case Queen =>
              r := true;
            case _ =>
          }
        }
    }
  }

  /** The ray walk of `is_square_checked_by_slider` over a table of one-square steps. */
  method CheckedAlongRays(p: Position, c: Coord, color: Color, directions: seq<Delta>) returns (r: bool)
    requires p.ColorImpliesKind() && AllUnit(directions)
    ensures r == SliderChecked(p, c, color, directions)
  {
    for t := 0 to |directions|
      invariant SliderChecked(p, c, color, directions) == SliderChecked(p, c, color, directions[t..])
    {
      assert directions[t..][1..] == directions[t + 1..];
      var hit := RayWalk(p, c, color, directions[t]);
      if hit {
        return true;
      }
    }
    r := false;
  }

  /** Every entry of the king table is a one-square step. */
  lemma KingDirectionsUnit()
    ensures AllUnit(KingDirections)
  {
    forall t | 0 <= t < |KingDirections|
      ensures UnitDirection(KingDirections[t])
    {
    }
  }

  method IsSquareCheckedBySlider(p: Position, c: Coord, color: Color) returns (r: bool)
    requires p.ColorImpliesKind()
    ensures r == CheckedBySlider(p, c, color)
  {
    KingDirectionsUnit();
    r := CheckedAlongRays(p, c, color, KingDirections);
  }

  /** Some ray of the table is checked. */
  lemma {:induction false} SliderCheckedIff(p: Position, c: Coord, color: Color, directions: seq<Delta>)
    requires p.ColorImpliesKind() && AllUnit(directions)
    ensures SliderChecked(p, c, color, directions) <==>
      exists t :: 0 <= t < |directions| && RayChecked(p, c, color, directions[t])
    decreases |directions|
  {
    if |directions| > 0 {
      var rest := directions[1..];
      SliderCheckedIff(p, c, color, rest);
      if exists t :: 0 <= t < |directions| && RayChecked(p, c, color, directions[t]) {
        var t :| 0 <= t < |directions| && RayChecked(p, c, color, directions[t]);
        if t > 0 {
          assert rest[t - 1] == directions[t];
        }
      }
      if exists t :: 0 <= t < |rest| && RayChecked(p, c, color, rest[t]) {
        var t :| 0 <= t < |rest| && RayChecked(p, c, color, rest[t]);
        assert directions[t + 1] == rest[t];
      }
    }
  }

  /**
   * Only the first occupied square of a ray counts: every square before
   * `stop` is an empty board square, and the square at `stop` is off the
   * board or occupied.
   */
  lemma RayFirstBlocker(p: Position, c: Coord, d: Delta)
    requires p.ColorImpliesKind() && UnitDirection(d)
    ensures var stop := RayStop(p, c, d, 1);
      && 1 <= stop <= 9
      && (forall k :: 1 <= k < stop ==> EmptyAt(p, RaySquare(c, d, k)))
      && !EmptyAt(p, RaySquare(c, d, stop))
  {
    forall k | 1 <= k < RayStop(p, c, d, 1)
      ensures EmptyAt(p, RaySquare(c, d, k))
    {
      RayStopClear(p, c, d, 1, k);
    }
  }

  /**
   * An attacking slider stands `k` squares along `d`, and every square before
   * it is an empty board square.
   */
  predicate SliderAt(p: Position, c: Coord, color: Color, d: Delta, k: int)
    requires p.ColorImpliesKind()
  {
    && 1 <= k
    && (forall j :: 1 <= j < k ==> EmptyAt(p, RaySquare(c, d, j)))
    && PieceAt(p, RaySquare(c, d, k)).Some?
    && PieceAt(p, RaySquare(c, d, k)).value.color != color
    && SliderAttacks(PieceAt(p, RaySquare(c, d, k)).value.kind, d)
  }

  /** The ray test finds its slider where the ray stops. */
  lemma RayCheckedWitness(p: Position, c: Coord, color: Color, d: Delta)
    requires p.ColorImpliesKind() && UnitDirection(d) && RayChecked(p, c, color, d)
    ensures SliderAt(p, c, color, d, RayStop(p, c, d, 1))
  {
    RayFirstBlocker(p, c, d);
  }

  /** A slider with a clear line to `c` stands where the ray stops. */
  lemma SliderAtStop(p: Position, c: Coord, color: Color, d: Delta, k: int)
    requires p.ColorImpliesKind() && UnitDirection(d) && SliderAt(p, c, color, d, k)
    ensures k == RayStop(p, c, d, 1)
  {
    var stop := RayStop(p, c, d, 1);
    assert !EmptyAt(p, RaySquare(c, d, k));
    if k < stop {
      RayStopClear(p, c, d, 1, k);
    }
    assert !EmptyAt(p, RaySquare(c, d, stop));
  }

  /**
   * The ray test holds exactly when an attacking slider stands somewhere along
   * the ray with only empty squares between it and `c`: a nearer piece blocks.
   */
  lemma RayCheckedIff(p: Position, c: Coord, color: Color, d: Delta)
    requires p.ColorImpliesKind() && UnitDirection(d)
    ensures RayChecked(p, c, color, d) <==> exists k :: SliderAt(p, c, color, d, k)
  {
    if RayChecked(p, c, color, d) {
      RayCheckedWitness(p, c, color, d);
    }
    if k :| SliderAt(p, c, color, d, k) {
      SliderAtStop(p, c, color, d, k);
    }
  }

  /**
   * `is_square_checked_by_slider` holds exactly when, along some direction of
   * the king table, an attacking slider has a clear line to `c`.
   */
  lemma CheckedBySliderIff(p: Position, c: Coord, color: Color)
    requires p.ColorImpliesKind()
    ensures CheckedBySlider(p, c, color) <==>
      exists t, k :: 0 <= t < |KingDirections| && SliderAt(p, c, color, KingDirections[t], k)
  {
    KingDirectionsUnit();
    SliderCheckedIff(p, c, color, KingDirections);
    forall t | 0 <= t < |KingDirections|
      ensures RayChecked(p, c, color, KingDirections[t]) <==> exists k :: SliderAt(p, c, color, KingDirections[t], k)
    {
      RayCheckedIff(p, c, color, KingDirections[t]);
    }
  }

  // ---------------------------------------------------------------------------
  // Pawns.
  // ---------------------------------------------------------------------------

  /** The row step towards the attackers' pawns: +1 for White, -1 for Black. */
  function PawnRank(color: Color): int
  {
    match color
    case White => 1
    case Black => -1
  }

  predicate PawnAttacker(p: Position, c: Coord, color: Color)
    requires p.ColorImpliesKind()
  {
    PieceAt(p, c).Some? && PieceAt(p, c).value.kind == Pawn && color != PieceAt(p, c).value.color
  }

  /** `is_square_checked_by_pawn`: a pawn of the other colour on (i + di, j + 1) or (i + di, j - 1). */
  predicate CheckedByPawn(p: Position, c: Coord, color: Color)
    requires p.ColorImpliesKind()
  {
    PawnAttacker(p, (c.0 + PawnRank(color), c.1 + 1), color) ||
    PawnAttacker(p, (c.0 + PawnRank(color), c.1 - 1), color)
  }

  method IsSquareCheckedByPawn(p: Position, c: Coord, color: Color) returns (r: bool)
    requires p.ColorImpliesKind()
    ensures r == CheckedByPawn(p, c, color)
  {
    var di := match color case White => 1 case Black => -1;
    var fileSteps := [1, -1];
    for t := 0 to 2
      invariant forall u :: 0 <= u < t ==> !PawnAttacker(p, (c.0 + di, c.1 + fileSteps[u]), color)
    {
      var dj := fileSteps[t];
      match PieceAt(p, (c.0 + di, c.1 + dj)) {
        case None =>
        case Some(piece) =>
          if piece.kind == Pawn && color != piece.color {
            return true;
          }
      }
    }
    assert !PawnAttacker(p, (c.0 + di, c.1 + fileSteps[0]), color);
    assert !PawnAttacker(p, (c.0 + di, c.1 + fileSteps[1]), color);
    r := false;
  }

  // ---------------------------------------------------------------------------
  // The square and the king.
  // ---------------------------------------------------------------------------

  /** `is_square_checked`: the four tests, in this order. */
  predicate IsSquareCheckedSpec(p: Position, c: Coord, color: Color)
    requires p.ColorImpliesKind()
  {
    || CheckedBySlider(p, c, color)
    || CheckedByKnight(p, c, color)
    || CheckedByKing(p, c, color)
    || CheckedByPawn(p, c, color)
  }

  method IsSquareChecked(p: Position, c: Coord, color: Color) returns (r: bool)
    requires p.ColorImpliesKind()
    ensures r == IsSquareCheckedSpec(p, c, color)
  {
    r := IsSquareCheckedBySlider(p, c, color);
    if !r {
      r := CheckedByKnight(p, c, color) || CheckedByKing(p, c, color);
    }
    if !r {
      r := IsSquareCheckedByPawn(p, c, color);
    }
  }

  method IsKingChecked(p: Position, color: Color) returns (r: bool)
    requires p.ColorImpliesKind()
    ensures r == IsSquareCheckedSpec(p, KingSquare(p, color), color)
  {
    r := IsSquareChecked(p, KingSquare(p, color), color);
  }

  /** An occupied square's bit is in its piece's colour mask. */
  lemma OccupiedInColorMask(p: Position, c: Coord, piece: Piece)
    requires p.ColorImpliesKind() && PieceAt(p, c) == Some(piece)
    ensures IndexOf(c) in p.PiecesOf(piece.color)
  {
  }

  /** A ray check ends on a piece of the other colour. */
  lemma SliderAttackerIsOpponent(p: Position, c: Coord, color: Color)
    requires p.ColorImpliesKind() && CheckedBySlider(p, c, color)
    ensures exists k :: 0 <= k < 64 && k in p.PiecesOf(Not(color))
  {
    KingDirectionsUnit();
    SliderCheckedIff(p, c, color, KingDirections);
    var t :| 0 <= t < |KingDirections| && RayChecked(p, c, color, KingDirections[t]);
    var sq := RaySquare(c, KingDirections[t], RayStop(p, c, KingDirections[t], 1));
    var piece := PieceAt(p, sq).value;
    OccupiedInColorMask(p, sq, piece);
    assert piece.color == Not(color);
  }

  /** A knight or king check comes from a piece of the other colour. */
  lemma LeaperAttackerIsOpponent(p: Position, c: Coord, color: Color, kind: PieceKind, directions: seq<Delta>)
    requires p.ColorImpliesKind() && Grid.ContainsPieceInAnyDirection(p, c, Piece(kind, Not(color)), directions)
    ensures exists k :: 0 <= k < 64 && k in p.PiecesOf(Not(color))
  {
    Grid.ContainsPieceInAnyDirectionIff(p, c, Piece(kind, Not(color)), directions);
    var t :| 0 <= t < |directions| && PieceAt(p, Shift(c, directions[t])) == Some(Piece(kind, Not(color)));
    OccupiedInColorMask(p, Shift(c, directions[t]), Piece(kind, Not(color)));
  }

  /** A pawn check comes from a pawn of the other colour. */
  lemma PawnAttackerIsOpponent(p: Position, c: Coord, color: Color)
    requires p.ColorImpliesKind() && CheckedByPawn(p, c, color)
    ensures exists k :: 0 <= k < 64 && k in p.PiecesOf(Not(color))
  {
    var sq := if PawnAttacker(p, (c.0 + PawnRank(color), c.1 + 1), color)
      then (c.0 + PawnRank(color), c.1 + 1) else (c.0 + PawnRank(color), c.1 - 1);
    var piece := PieceAt(p, sq).value;
    OccupiedInColorMask(p, sq, piece);
    assert piece.color == Not(color);
  }

  /**
   * Pieces of the defending colour never attack: a square is attacked only
   * when the other colour has a piece on the board.
   */
  lemma AttackNeedsOpponent(p: Position, c: Coord, color: Color)
    requires p.ColorImpliesKind() && IsSquareCheckedSpec(p, c, color)
    ensures exists k :: 0 <= k < 64 && k in p.PiecesOf(Not(color))
  {
    if CheckedBySlider(p, c, color) {
      SliderAttackerIsOpponent(p, c, color);
    } else if CheckedByKnight(p, c, color) {
      LeaperAttackerIsOpponent(p, c, color, Knight, KnightDirections);
    } else if CheckedByKing(p, c, color) {
      LeaperAttackerIsOpponent(p, c, color, King, KingDirections);
    } else {
      PawnAttackerIsOpponent(p, c, color);
    }
  }
}

/**
 * The end-of-game tests of src/check_mate.rs: `king_cannot_move` on the
 * legality filter of src/valid_moves.rs, and `is_stalemate`, which as
 * written only asks whether every piece left is a king.
 */
module CheckMate {
  import opened Wrappers
  import opened Pieces
  import opened Board
  import opened Grid
  import opened GridAttacks
  import LegacyValidMoves

  /**
   * `king_cannot_move`: the king is attacked and the side has no legal
   * move. The `&&` short-circuits, so the move list is only built for an
   * attacked king; None when building it panics.
   */
  function KingCannotMoveOf(p: Position, color: Color): Option<bool>
    requires p.ColorImpliesKind()
  {
    if !IsSquareCheckedSpec(p, KingSquare(p, color), color) then Some(false)
    else
      match LegacyValidMoves.AllValidMovesOf(p, color)
      case None => None
      case Some(moves) => Some(|moves| == 0)
  }

  method KingCannotMove(p: Position, color: Color) returns (r: Option<bool>)
    requires p.ColorImpliesKind()
    ensures r == KingCannotMoveOf(p, color) && r.Some?
  {
    LegacyValidMoves.FilterTotal(p, color);
    var checked := IsKingChecked(p, color);
    if !checked {
      return Some(false);
    }
    var moves := LegacyValidMoves.AllValidMoves(p, color);
    match moves {
      case None => r := None;
      case Some(ms) => r := Some(|ms| == 0);
    }
  }

  /** Whether the king is attacked after the move; the verdict of the legality filter, in words. */
  predicate NoMoveKept(p: Position, color: Color)
    requires p.ColorImpliesKind()
  {
    forall m :: m in LegacyValidMoves.PossibleMoves(p, color) ==> LegacyValidMoves.KeepMove(p, m) == Some(false)
  }

  /**
   * The side cannot move exactly when its king is attacked and every one of
   * its pseudo-legal moves leaves the king attacked.
   */
  lemma KingCannotMoveIff(p: Position, color: Color)
    requires p.ColorImpliesKind()
    ensures KingCannotMoveOf(p, color).Some?
    ensures KingCannotMoveOf(p, color).value <==>
      IsSquareCheckedSpec(p, KingSquare(p, color), color) && NoMoveKept(p, color)
  {
    LegacyValidMoves.FilterTotal(p, color);
    if IsSquareCheckedSpec(p, KingSquare(p, color), color) {
      var possible := LegacyValidMoves.PossibleMoves(p, color);
      var moves := LegacyValidMoves.AllValidMovesOf(p, color).value;
      LegacyValidMoves.FilteredMovesDefined(p, possible);
      if |moves| == 0 {
        forall m | m in possible
          ensures LegacyValidMoves.KeepMove(p, m) == Some(false)
        {
          LegacyValidMoves.ValidMovesIff(p, color, m);
        }
      } else {
        LegacyValidMoves.ValidMovesIff(p, color, moves[0]);
      }
    }
  }

  /** A side that cannot move is in check from a piece of the other colour. */
  lemma CannotMoveNeedsAttacker(p: Position, color: Color)
    requires p.ColorImpliesKind() && KingCannotMoveOf(p, color) == Some(true)
    ensures exists k :: 0 <= k < 64 && k in p.PiecesOf(Not(color))
  {
    AttackNeedsOpponent(p, KingSquare(p, color), color);
  }

  /** Every piece on the board is a king. */
  predicate OnlyKings(p: Position)
    requires p.ColorImpliesKind()
  {
    forall k :: 0 <= k < 64 && k in p.ColorMask() ==> p.At(k).piece.kind == King
  }

  /** `is_stalemate`: scan the 8 x 8 squares and answer false at the first piece that is not a king. */
  method IsStalemate(p: Position) returns (r: bool)
    requires p.ColorImpliesKind()
    ensures r == OnlyKings(p)
  {
    for i := 0 to 8
      invariant forall k :: 0 <= k < i * 8 && k in p.ColorMask() ==> p.At(k).piece.kind == King
    {
      for j := 0 to 8
        invariant forall k :: 0 <= k < i * 8 + j && k in p.ColorMask() ==> p.At(k).piece.kind == King
      {
        match p.At(IndexOf((i, j))) {
          case Occupied(piece) =>
            if piece.kind != King {
              return false;
            }
          case Empty =>
        }
      }
    }
    r := true;
  }

  /** On a board whose kind masks are disjoint, the one occupied square's kind is King exactly when its bit is a king bit. */
  lemma KingSquareIsKing(p: Position, k: int)
    requires p.ColorImpliesKind() && p.KindsDisjoint() && 0 <= k < 64 && k in p.ColorMask()
    ensures p.At(k).piece.kind == King <==> k in p.kings
  {
    var kind := p.At(k).piece.kind;
    if kind != King {
      NotKingBit(p, kind, k);
    }
  }

  /** A bit of another kind's mask is not a king bit. */
  lemma NotKingBit(p: Position, kind: PieceKind, k: int)
    requires p.KindsDisjoint() && kind != King && k in p.PiecesOfKind(kind)
    ensures k !in p.kings
  {
    match kind {
      case Pawn => assert k !in p.pawns * (p.knights + p.bishops + p.rooks + p.queens + p.kings);
      case Knight => assert k !in p.knights * (p.bishops + p.rooks + p.queens + p.kings);
      case Bishop => assert k !in p.bishops * (p.rooks + p.queens + p.kings);
      case Rook => assert k !in p.rooks * (p.queens + p.kings);
      case Queen => assert k !in p.queens * p.kings;
    }
  }

  /** With disjoint kind masks, the stalemate test holds exactly when every occupied square is a king square. */
  lemma OnlyKingsIff(p: Position)
    requires p.ColorImpliesKind() && p.KindsDisjoint()
    ensures OnlyKings(p) <==> forall k :: 0 <= k < 64 && k in p.ColorMask() ==> k in p.kings
  {
    forall k | 0 <= k < 64 && k in p.ColorMask()
      ensures p.At(k).piece.kind == King <==> k in p.kings
    {
      KingSquareIsKing(p, k);
    }
  }
}
