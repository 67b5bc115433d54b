/**
 * Attack detection: whether a square is attacked by a piece of the other
 * colour, and whether a side's king stands on such a square.
 */
module CheckedSquares {
  import opened Wrappers
  import opened Pieces
  import opened Directions
  import opened Board
  import opened BoardUtils

  // ---------------------------------------------------------------------------
  // Board geometry used by the characterisations below.
  // ---------------------------------------------------------------------------

  function Rank(s: int): int { s / 8 }

  function File(s: int): int { s % 8 }

  /** The delta that leads from `from` to `to` (rank offset, file offset). */
  function DeltaBetween(from: int, to: int): Delta
  {
    (Rank(to) - Rank(from), File(to) - File(from))
  }

  /** On the board, a delta leads from `from` to `to` exactly when it is the delta between them. */
  lemma ApplyDeltaReaches(from: SquareIndex, delta: Delta, to: int)
    requires from < 64 && 0 <= to < 64
    ensures ApplyDelta(from, delta) == to <==> delta == DeltaBetween(from, to)
  {
    if delta == DeltaBetween(from, to) {
      var r := ApplyDelta(from, delta);
      assert r != -1;
      assert r == Rank(r) * 8 + File(r) && to == Rank(to) * 8 + File(to);
    }
  }

  /** Two squares a knight's jump apart. */
  predicate KnightApart(a: int, b: int)
  {
    var d := DeltaBetween(a, b);
    (Abs(d.0) == 1 && Abs(d.1) == 2) || (Abs(d.0) == 2 && Abs(d.1) == 1)
  }

  /** Two distinct squares a king's step apart. */
  predicate KingApart(a: int, b: int)
  {
    var d := DeltaBetween(a, b);
    (d.0 != 0 || d.1 != 0) && Abs(d.0) <= 1 && Abs(d.1) <= 1
  }

  /** The rank offset from a square to the pawns that attack it: upwards for White, downwards for Black. */
  function PawnRank(color: Color): int
  {
    match color
    case White => 1
    case Black => -1
  }

  // ---------------------------------------------------------------------------
  // Knights and kings: a fixed table of deltas.
  // ---------------------------------------------------------------------------

  /** A knight of the other colour stands a knight's jump away from `index`. */
  function IsSquareCheckedByKnight(p: Position, index: SquareIndex, color: Color): (r: bool)
    requires p.ColorImpliesKind()
    ensures r <==> exists t :: 0 <= t < |KnightDirections| &&
                              MaybePieceAt(p, ApplyDelta(index, KnightDirections[t])) == Some(Piece(Knight, Not(color)))
  {
    ContainsPieceInAnyDirection(p, index, Piece(Knight, Not(color)), KnightDirections)
  }

  /** A king of the other colour stands next to `index`. */
  function IsSquareCheckedByKing(p: Position, index: SquareIndex, color: Color): (r: bool)
    requires p.ColorImpliesKind()
    ensures r <==> exists t :: 0 <= t < |KingDirections| &&
                              MaybePieceAt(p, ApplyDelta(index, KingDirections[t])) == Some(Piece(King, Not(color)))
  {
    ContainsPieceInAnyDirection(p, index, Piece(King, Not(color)), KingDirections)
  }

  /**
   * With `index` on the board, some delta of a table leads to `piece` exactly
   * when a square holding `piece` lies at one of the table's deltas from `index`.
   */
  lemma TableCheckIff(p: Position, index: SquareIndex, piece: Piece, directions: seq<Delta>)
    requires p.ColorImpliesKind() && index < 64
    ensures (exists t :: 0 <= t < |directions| && MaybePieceAt(p, ApplyDelta(index, directions[t])) == Some(piece)) <==>
      (exists s :: 0 <= s < 64 && MaybePieceAt(p, s) == Some(piece) && DeltaBetween(index, s) in directions)
  {
    if t :| 0 <= t < |directions| && MaybePieceAt(p, ApplyDelta(index, directions[t])) == Some(piece) {
      ApplyDeltaReaches(index, directions[t], ApplyDelta(index, directions[t]));
    }
    if s :| 0 <= s < 64 && MaybePieceAt(p, s) == Some(piece) && DeltaBetween(index, s) in directions {
      var t :| 0 <= t < |directions| && directions[t] == DeltaBetween(index, s);
      ApplyDeltaReaches(index, directions[t], s);
    }
  }

  /** The knight table holds exactly the knight-shaped deltas. */
  lemma KnightDeltas(d: Delta)
    ensures d in KnightDirections <==> (Abs(d.0) == 1 && Abs(d.1) == 2) || (Abs(d.0) == 2 && Abs(d.1) == 1)
  {
  }

  lemma KingDirectionsUnit()
    ensures forall u :: 0 <= u < |KingDirections| ==> UnitDirection(KingDirections[u])
  {
  }

  /** The king table holds exactly the one-square steps. */
  lemma KingDeltas(d: Delta)
    ensures d in KingDirections <==> UnitDirection(d)
  {
  }

  /**
   * With `index` on the board, the knight test holds exactly when some knight
   * of the other colour stands a knight's jump away.
   */
  lemma KnightCheckIff(p: Position, index: SquareIndex, color: Color)
    requires p.ColorImpliesKind() && index < 64
    ensures IsSquareCheckedByKnight(p, index, color) <==>
      exists s :: 0 <= s < 64 && MaybePieceAt(p, s) == Some(Piece(Knight, Not(color))) && KnightApart(index, s)
  {
    TableCheckIff(p, index, Piece(Knight, Not(color)), KnightDirections);
    forall s | 0 <= s < 64
      ensures DeltaBetween(index, s) in KnightDirections <==> KnightApart(index, s)
    {
      KnightDeltas(DeltaBetween(index, s));
    }
  }

  /**
   * With `index` on the board, the king test holds exactly when the king of
   * the other colour stands on a neighbouring square.
   */
  lemma KingCheckIff(p: Position, index: SquareIndex, color: Color)
    requires p.ColorImpliesKind() && index < 64
    ensures IsSquareCheckedByKing(p, index, color) <==>
      exists s :: 0 <= s < 64 && MaybePieceAt(p, s) == Some(Piece(King, Not(color))) && KingApart(index, s)
  {
    TableCheckIff(p, index, Piece(King, Not(color)), KingDirections);
    forall s | 0 <= s < 64
      ensures DeltaBetween(index, s) in KingDirections <==> KingApart(index, s)
    {
      KingDeltas(DeltaBetween(index, s));
    }
  }

  // ---------------------------------------------------------------------------
  // Sliders: walk each of the eight directions over empty squares and look at
  // the first square that is not empty (or is off the board).
  // ---------------------------------------------------------------------------

  /** The `dist`-th square along `delta` is on the board and empty. */
  predicate Clear(p: Position, index: SquareIndex, delta: Delta, dist: nat)
    requires p.ColorImpliesKind()
  {
    WithinBoundsAndEmpty(p, ApplyDeltaWithDist(index, delta, dist)).Some?
  }

  /**
   * The first distance at or beyond `dist` whose square is not clear: where
   * the slider loop stops. No ray stays on the board for 24 steps.
   */
  function RayStop(p: Position, index: SquareIndex, delta: Delta, dist: nat): (r: nat)
    requires p.ColorImpliesKind() && UnitDirection(delta) && dist <= 24
    ensures dist <= r <= 24
    ensures !Clear(p, index, delta, r)
    decreases 24 - dist
  {
    if dist == 24 then
      RayLeavesBoard(index, delta, dist);
      dist
    else if Clear(p, index, delta, dist) then
      RayStop(p, index, delta, dist + 1)
    else
      dist
  }

  /** Every square before the stop is clear. */
  lemma {:induction false} RayStopClear(p: Position, index: SquareIndex, delta: Delta, dist: nat, k: nat)
    requires p.ColorImpliesKind() && UnitDirection(delta) && dist <= 24 && dist <= k < RayStop(p, index, delta, dist)
    ensures Clear(p, index, delta, k)
    decreases k - dist
  {
    if dist < k {
      RayStopClear(p, index, delta, dist + 1, k);
    }
  }

  /** `piece`, of the other colour, attacks along `delta`: rooks straight, bishops diagonally, queens both. */
  predicate SliderAttacks(piece: Piece, delta: Delta, color: Color)
  {
    && piece.color != color
    && match piece.kind
       case Rook => delta.0 * delta.1 == 0
       case Bishop => delta.0 * delta.1 != 0
       case Queen => true
       case _ => false
  }

  /** The square where the ray along `delta` stops holds an attacking slider. */
  predicate RayChecked(p: Position, index: SquareIndex, color: Color, delta: Delta)
    requires p.ColorImpliesKind() && UnitDirection(delta)
  {
    match MaybePieceAt(p, ApplyDeltaWithDist(index, delta, RayStop(p, index, delta, 1)))
    case None => false
    case Some(piece) => SliderAttacks(piece, delta, color)
  }

  /** Some direction of the king table holds an attacking slider. */
  predicate CheckedBySlider(p: Position, index: SquareIndex, color: Color)
    requires p.ColorImpliesKind()
  {
    exists t :: 0 <= t < |KingDirections| && UnitDirection(KingDirections[t]) &&
      RayChecked(p, index, color, KingDirections[t])
  }

  /** The `k`-th square along `delta` holds an attacking slider and every square before it is clear. */
  predicate SliderAt(p: Position, index: SquareIndex, color: Color, delta: Delta, k: nat)
    requires p.ColorImpliesKind()
  {
    && 1 <= k
    && (forall j :: 1 <= j < k ==> Clear(p, index, delta, j))
    && match MaybePieceAt(p, ApplyDeltaWithDist(index, delta, k))
       case None => false
       case Some(piece) => SliderAttacks(piece, delta, color)
  }

  /** A clear square is fewer than 24 steps away. */
  lemma ClearIsNear(p: Position, index: SquareIndex, delta: Delta, dist: nat)
    requires p.ColorImpliesKind() && UnitDirection(delta) && Clear(p, index, delta, dist)
    ensures dist < 24
  {
    if dist >= 24 {
      RayLeavesBoard(index, delta, dist);
    }
  }

  /**
   * From an on-board square the eighth step along a one-square direction is
   * off the board, so the walk stops by distance 8: at most seven empty
   * squares are visited.
   */
  lemma {:induction false} RayStopWithinEight(p: Position, index: SquareIndex, delta: Delta, dist: nat)
    requires p.ColorImpliesKind() && UnitDirection(delta) && index < 64 && dist <= 8
    ensures RayStop(p, index, delta, dist) <= 8
    decreases 8 - dist
  {
    if dist == 8 {
      EighthStepOffBoard(index, delta);
    } else if Clear(p, index, delta, dist) {
      RayStopWithinEight(p, index, delta, dist + 1);
    }
  }

  lemma EighthStepOffBoard(index: SquareIndex, delta: Delta)
    requires UnitDirection(delta) && index < 64
    ensures ApplyDeltaWithDist(index, delta, 8) == -1
  {
    ApplyDeltaWithDistOffsets(index, delta, 8);
    if delta.0 != 0 {
      assert delta.0 * 8 == 8 || delta.0 * 8 == -8;
    } else {
      assert delta.1 * 8 == 8 || delta.1 * 8 == -8;
    }
  }

  /** The first square that is not clear is where the ray stops. */
  lemma FirstBlockedIsStop(p: Position, index: SquareIndex, delta: Delta, k: nat)
    requires p.ColorImpliesKind() && UnitDirection(delta) && 1 <= k <= 24
    requires ClearBefore(p, index, delta, k)
    requires !Clear(p, index, delta, k)
    ensures k == RayStop(p, index, delta, 1)
  {
    var stop := RayStop(p, index, delta, 1);
    if k < stop {
      RayStopClear(p, index, delta, 1, k);
    }
    if stop < k {
      ClearBeforeAll(p, index, delta, k, stop);
    }
    assert !Clear(p, index, delta, stop);
  }

  /** Every square strictly between `index` and distance `dist` is clear. */
  predicate ClearBefore(p: Position, index: SquareIndex, delta: Delta, dist: nat)
    requires p.ColorImpliesKind()
  {
    dist <= 1 || (ClearBefore(p, index, delta, dist - 1) && Clear(p, index, delta, dist - 1))
  }

  lemma {:induction false} ClearBeforeOfAll(p: Position, index: SquareIndex, delta: Delta, dist: nat)
    requires p.ColorImpliesKind() && forall j :: 1 <= j < dist ==> Clear(p, index, delta, j)
    ensures ClearBefore(p, index, delta, dist)
  {
    if dist > 1 {
      ClearBeforeOfAll(p, index, delta, dist - 1);
    }
  }

  lemma {:induction false} ClearBeforeAll(p: Position, index: SquareIndex, delta: Delta, dist: nat, j: nat)
    requires p.ColorImpliesKind() && ClearBefore(p, index, delta, dist) && 1 <= j < dist
    ensures Clear(p, index, delta, j)
    decreases dist
  {
    if j < dist - 1 {
      ClearBeforeAll(p, index, delta, dist - 1, j);
    }
  }

  /** The ray test finds its slider where the ray stops. */
  lemma RayCheckedWitness(p: Position, index: SquareIndex, color: Color, delta: Delta)
    requires p.ColorImpliesKind() && UnitDirection(delta) && RayChecked(p, index, color, delta)
    ensures SliderAt(p, index, color, delta, RayStop(p, index, delta, 1))
  {
    forall j | 1 <= j < RayStop(p, index, delta, 1)
      ensures Clear(p, index, delta, j)
    {
      RayStopClear(p, index, delta, 1, j);
    }
  }

  /** A slider with a clear line to `index` stands where the ray stops. */
  lemma SliderAtStop(p: Position, index: SquareIndex, color: Color, delta: Delta, k: nat)
    requires p.ColorImpliesKind() && UnitDirection(delta) && SliderAt(p, index, color, delta, k)
    ensures k == RayStop(p, index, delta, 1)
  {
    assert !Clear(p, index, delta, k);
    if k > 24 {
      assert Clear(p, index, delta, 24);
      ClearIsNear(p, index, delta, 24);
    }
    ClearBeforeOfAll(p, index, delta, k);
    FirstBlockedIsStop(p, index, delta, k);
  }

  /**
   * The ray test holds exactly when an attacking slider stands somewhere along
   * the ray with nothing between it and `index`: a nearer piece blocks.
   */
  lemma RayCheckedIff(p: Position, index: SquareIndex, color: Color, delta: Delta)
    requires p.ColorImpliesKind() && UnitDirection(delta)
    ensures RayChecked(p, index, color, delta) <==> exists k: nat :: SliderAt(p, index, color, delta, k)
  {
    if RayChecked(p, index, color, delta) {
      RayCheckedWitness(p, index, color, delta);
    }
    if k: nat :| SliderAt(p, index, color, delta, k) {
      SliderAtStop(p, index, color, delta, k);
    }
  }

  /** The slider test of the source: the eight rays, stopping at the first attacker found. */
  method IsSquareCheckedBySlider(p: Position, index: SquareIndex, color: Color) returns (r: bool)
    requires p.ColorImpliesKind()
    ensures r == CheckedBySlider(p, index, color)
  {
    KingDirectionsUnit();
    r := CheckedAlongRays(p, index, color, KingDirections);
  }

  /**
   * The loop of the slider test over a table of one-square directions: walk
   * each ray over clear squares and look at the square where it stops.
   */
  method CheckedAlongRays(p: Position, index: SquareIndex, color: Color, directions: seq<Delta>) returns (r: bool)
    requires p.ColorImpliesKind()
    requires forall u :: 0 <= u < |directions| ==> UnitDirection(directions[u])
    ensures r <==> exists t :: 0 <= t < |directions| && RayChecked(p, index, color, directions[t])
  {
    for t := 0 to |directions|
      invariant forall u :: 0 <= u < t ==> !RayChecked(p, index, color, directions[u])
    {
      var delta := directions[t];
      var dist: nat := 1;
      while Clear(p, index, delta, dist)
        invariant 1 <= dist <= 24
        invariant ClearBefore(p, index, delta, dist)
        decreases 24 - dist
      {
        ClearIsNear(p, index, delta, dist);
        dist := dist + 1;
      }
      FirstBlockedIsStop(p, index, delta, dist);
      match MaybePieceAt(p, ApplyDeltaWithDist(index, delta, dist)) {
        case None =>
        case Some(piece) =>
          if piece.color != color {
            match piece.kind {
              case Rook =>
                if delta.0 * delta.1 == 0 {
                  assert RayChecked(p, index, color, directions[t]);
                  return true;
                }
              case Bishop =>
                if delta.0 * delta.1 != 0 {
                  assert RayChecked(p, index, color, directions[t]);
                  return true;
                }
              case Queen =>
                assert RayChecked(p, index, color, directions[t]);
                return true;
              case _ =>
            }
          }
          assert !SliderAttacks(piece, delta, color);
      }
      assert !RayChecked(p, index, color, delta);
    }
    return false;
  }

  // ---------------------------------------------------------------------------
  // Pawns: the two squares one rank towards the attacking side.
  // ---------------------------------------------------------------------------

  /** Square `sq` holds a pawn of the other colour. */
  predicate PawnAttacker(p: Position, sq: int, color: Color)
    requires p.ColorImpliesKind()
  {
    match MaybePieceAt(p, sq)
    case None => false
    case Some(piece) => piece.kind == Pawn && piece.color != color
  }

  /** One of the two diagonal squares towards the other side holds one of its pawns. */
  predicate CheckedByPawn(p: Position, index: SquareIndex, color: Color)
    requires p.ColorImpliesKind()
  {
    PawnAttacker(p, ApplyDelta(index, (PawnRank(color), 1)), color) ||
    PawnAttacker(p, ApplyDelta(index, (PawnRank(color), -1)), color)
  }

  method IsSquareCheckedByPawn(p: Position, index: SquareIndex, color: Color) returns (r: bool)
    requires p.ColorImpliesKind()
    ensures r == CheckedByPawn(p, index, color)
  {
    var di := match color case White => 1 case Black => -1;
    assert di == PawnRank(color);
    var fileSteps := [1, -1];
    for i := 0 to |fileSteps|
      invariant forall u :: 0 <= u < i ==> !PawnAttacker(p, ApplyDelta(index, (di, fileSteps[u])), color)
    {
      match MaybePieceAt(p, ApplyDelta(index, (di, fileSteps[i]))) {
        case None =>
        case Some(piece) =>
          if piece.kind == Pawn && color != piece.color {
            assert PawnAttacker(p, ApplyDelta(index, (di, fileSteps[i])), color);
            return true;
          }
      }
    }
    assert fileSteps[0] == 1 && fileSteps[1] == -1;
    return false;
  }

  /**
   * With `index` on the board, the pawn test holds exactly when a
   * pawn of the other colour stands one rank towards its own side and one
   * file to either side.
   */
  lemma PawnCheckIff(p: Position, index: SquareIndex, color: Color)
    requires p.ColorImpliesKind() && index < 64
    ensures CheckedByPawn(p, index, color) <==>
      exists s :: (0 <= s < 64 && PawnAttacker(p, s, color) &&
                   Rank(s) == Rank(index) + PawnRank(color) && Abs(File(s) - File(index)) == 1)
  {
    if CheckedByPawn(p, index, color) {
      var dj := if PawnAttacker(p, ApplyDelta(index, (PawnRank(color), 1)), color) then 1 else -1;
      var s := ApplyDelta(index, (PawnRank(color), dj));
      assert PawnAttacker(p, s, color);
      ApplyDeltaReaches(index, (PawnRank(color), dj), s);
    }
    if s :| (0 <= s < 64 && PawnAttacker(p, s, color) &&
             Rank(s) == Rank(index) + PawnRank(color) && Abs(File(s) - File(index)) == 1) {
      var dj := File(s) - File(index);
      ApplyDeltaReaches(index, (PawnRank(color), dj), s);
      assert PawnAttacker(p, ApplyDelta(index, (PawnRank(color), dj)), color);
    }
  }

  // ---------------------------------------------------------------------------
  // The combined test.
  // ---------------------------------------------------------------------------

  /** `index` is attacked by a slider, a knight, the king or a pawn of the other colour. */
  predicate IsSquareCheckedSpec(p: Position, index: SquareIndex, color: Color)
    requires p.ColorImpliesKind()
  {
    || CheckedBySlider(p, index, color)
    || IsSquareCheckedByKnight(p, index, color)
    || IsSquareCheckedByKing(p, index, color)
    || CheckedByPawn(p, index, color)
  }

  /** The four tests in the source's order, stopping at the first that holds. */
  method IsSquareChecked(p: Position, index: SquareIndex, color: Color) returns (r: bool)
    requires p.ColorImpliesKind()
    ensures r == IsSquareCheckedSpec(p, index, color)
  {
    r := IsSquareCheckedBySlider(p, index, color);
    if r {
      return;
    }
    if IsSquareCheckedByKnight(p, index, color) || IsSquareCheckedByKing(p, index, color) {
      return true;
    }
    r := IsSquareCheckedByPawn(p, index, color);
  }

  /** The square of `color`'s king (64 without one) is attacked. */
  method IsKingChecked(p: Position, color: Color) returns (r: bool)
    requires p.ColorImpliesKind()
    ensures r == IsSquareCheckedSpec(p, FindKing(p, color), color)
  {
    r := IsSquareChecked(p, FindKing(p, color), color);
  }

  /** With no pieces of colour `c` on the board, no square holds one. */
  lemma NoPieceOfColor(p: Position, sq: int, c: Color)
    requires p.ColorImpliesKind() && p.PiecesOf(c) == {}
    ensures MaybePieceAt(p, sq).Some? ==> MaybePieceAt(p, sq).value.color != c
  {
    if MaybePieceAt(p, sq).Some? {
      assert p.At(sq) == Occupied(MaybePieceAt(p, sq).value);
    }
  }

  /** A side's own pieces never attack a square for the opponent: with no enemy pieces, nothing is attacked. */
  lemma NoAttackersNoCheck(p: Position, index: SquareIndex, color: Color)
    requires p.ColorImpliesKind() && p.PiecesOf(Not(color)) == {}
    ensures !IsSquareCheckedSpec(p, index, color)
  {
    forall t | 0 <= t < |KingDirections| && UnitDirection(KingDirections[t])
      ensures !RayChecked(p, index, color, KingDirections[t])
    {
      NoPieceOfColor(p, ApplyDeltaWithDist(index, KingDirections[t], RayStop(p, index, KingDirections[t], 1)), Not(color));
    }
    forall t | 0 <= t < |KnightDirections|
      ensures MaybePieceAt(p, ApplyDelta(index, KnightDirections[t])) != Some(Piece(Knight, Not(color)))
    {
      NoPieceOfColor(p, ApplyDelta(index, KnightDirections[t]), Not(color));
    }
    forall t | 0 <= t < |KingDirections|
      ensures MaybePieceAt(p, ApplyDelta(index, KingDirections[t])) != Some(Piece(King, Not(color)))
    {
      NoPieceOfColor(p, ApplyDelta(index, KingDirections[t]), Not(color));
    }
    NoPieceOfColor(p, ApplyDelta(index, (PawnRank(color), 1)), Not(color));
    NoPieceOfColor(p, ApplyDelta(index, (PawnRank(color), -1)), Not(color));
  }
}
