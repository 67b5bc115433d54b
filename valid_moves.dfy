/**
 * Pseudo-legal move generation per piece kind, the castling tests, the
 * filter that drops moves leaving the mover's king attacked, and the list of
 * all valid moves of one side.
 *
 * Every generator walks its delta table in order and appends moves to a
 * growing list; each is a method proved equal to a recursive specification
 * function, and the lemmas below say which squares those functions reach.
 */
module ValidMoves {
  import opened Wrappers
  import opened Pieces
  import opened Directions
  import opened Board
  import opened BoardUtils
  import opened CheckedSquares
  import opened Moves
  import opened Seqs

  /** `sq` is on the board and either empty or held by a piece of another colour than `color`. */
  predicate FreeOrOpponent(p: Position, color: Color, sq: int)
    requires p.ColorImpliesKind()
  {
    0 <= sq < 64 && (MaybePieceAt(p, sq).None? || MaybePieceAt(p, sq).value.color != color)
  }

  /** The opponent test of the generators, in terms of the piece on the square. */
  lemma OpponentAt(p: Position, sq: int, color: Color)
    requires p.ColorImpliesKind()
    ensures WithinBoundsAndOccupiedByOpponent(p, sq, color).Some? <==>
      0 <= sq < 64 && MaybePieceAt(p, sq).Some? && MaybePieceAt(p, sq).value.color != color
  {
  }

  /** The two tests a generator makes on a target square together accept exactly the free-or-opponent squares. */
  lemma EmptyOrOpponent(p: Position, sq: int, color: Color)
    requires p.ColorImpliesKind()
    ensures WithinBoundsAndEmpty(p, sq).Some? || WithinBoundsAndOccupiedByOpponent(p, sq, color).Some? <==>
      FreeOrOpponent(p, color, sq)
  {
    OpponentAt(p, sq, color);
  }

  // ---------------------------------------------------------------------------
  // Leapers (knight and king): one step per delta.
  // ---------------------------------------------------------------------------

  /** The move, if any, one leaper step along `delta` gives. */
  function LeaperStep(p: Position, index: SquareIndex, color: Color, delta: Delta): seq<Move>
    requires p.ColorImpliesKind()
  {
    var toIndex := ApplyDelta(index, delta);
    match WithinBoundsAndEmpty(p, toIndex)
    case Some(t) => [BaseMove(index, t)]
    case None =>
      match WithinBoundsAndOccupiedByOpponent(p, toIndex, color)
      case Some(t) => [BaseMove(index, t)]
      case None => []
  }

  /** One leaper step per delta of the table. */
  function LeaperSteps(p: Position, index: SquareIndex, color: Color, directions: seq<Delta>): (r: seq<seq<Move>>)
    requires p.ColorImpliesKind()
    ensures |r| == |directions|
  {
    seq(|directions|, t requires 0 <= t < |directions| => LeaperStep(p, index, color, directions[t]))
  }

  /** The leaper's moves along `directions`, in table order. */
  function LeaperMoves(p: Position, index: SquareIndex, color: Color, directions: seq<Delta>): seq<Move>
    requires p.ColorImpliesKind()
  {
    Concat(LeaperSteps(p, index, color, directions))
  }

  method LeaperValidMoves(p: Position, index: SquareIndex, color: Color, directions: seq<Delta>)
    returns (moves: seq<Move>)
    requires p.ColorImpliesKind()
    ensures moves == LeaperMoves(p, index, color, directions)
  {
    ghost var parts := LeaperSteps(p, index, color, directions);
    moves := [];
    for t := 0 to |directions|
      invariant moves == Concat(parts[..t])
    {
      var delta := directions[t];
      var toIndex := ApplyDelta(index, delta);
      ConcatOneMore(parts, t);
      match WithinBoundsAndEmpty(p, toIndex) {
        case Some(target) =>
          moves := moves + [BaseMove(index, target)];
        case None =>
          match WithinBoundsAndOccupiedByOpponent(p, toIndex, color) {
            case Some(target) => moves := moves + [BaseMove(index, target)];
            case None =>
          }
      }
    }
    assert parts[..|directions|] == parts;
  }

  /** A leaper move: a plain move from `index` to a free-or-opponent square one delta of the table away. */
  predicate LeaperTarget(p: Position, index: SquareIndex, color: Color, directions: seq<Delta>, m: Move)
    requires p.ColorImpliesKind()
  {
    && m == BaseMove(index, m.to)
    && FreeOrOpponent(p, color, m.to)
    && exists t :: 0 <= t < |directions| && m.to == ApplyDelta(index, directions[t])
  }

  lemma LeaperStepIff(p: Position, index: SquareIndex, color: Color, delta: Delta)
    requires p.ColorImpliesKind()
    ensures var toIndex := ApplyDelta(index, delta);
      LeaperStep(p, index, color, delta) ==
        if FreeOrOpponent(p, color, toIndex) then [BaseMove(index, toIndex)] else []
  {
    EmptyOrOpponent(p, ApplyDelta(index, delta), color);
  }

  /**
   * The leaper's moves are exactly the plain moves from `index` to the
   * free-or-opponent squares one table delta away.
   */
  lemma LeaperMovesIff(p: Position, index: SquareIndex, color: Color, directions: seq<Delta>, m: Move)
    requires p.ColorImpliesKind()
    ensures m in LeaperMoves(p, index, color, directions) <==> LeaperTarget(p, index, color, directions, m)
  {
    var parts := LeaperSteps(p, index, color, directions);
    ConcatMember(parts, m);
    forall t | 0 <= t < |directions|
      ensures m in parts[t] <==>
        (m == BaseMove(index, m.to) && FreeOrOpponent(p, color, m.to) && m.to == ApplyDelta(index, directions[t]))
    {
      LeaperStepIff(p, index, color, directions[t]);
    }
  }

  /** At most one move per delta. */
  lemma LeaperMovesCount(p: Position, index: SquareIndex, color: Color, directions: seq<Delta>)
    requires p.ColorImpliesKind()
    ensures |LeaperMoves(p, index, color, directions)| <= |directions|
  {
    var parts := LeaperSteps(p, index, color, directions);
    forall t | 0 <= t < |directions|
      ensures |parts[t]| <= 1
    {
      LeaperStepIff(p, index, color, directions[t]);
    }
    ConcatLength(parts, 1);
  }

  // ---------------------------------------------------------------------------
  // Sliders (rook, bishop, queen): every clear square of each ray, then the
  // square that stops the ray when an opponent's piece is on it.
  // ---------------------------------------------------------------------------

  /** The moves along `delta` from distance `dist` on. */
  function RayMoves(p: Position, index: SquareIndex, color: Color, delta: Delta, dist: nat): seq<Move>
    requires p.ColorImpliesKind() && UnitDirection(delta) && dist <= 24
    decreases 24 - dist
  {
    var nextPosition := ApplyDeltaWithDist(index, delta, dist);
    match WithinBoundsAndEmpty(p, nextPosition)
    case Some(toIndex) =>
      ClearIsNear(p, index, delta, dist);
      [BaseMove(index, toIndex)] + RayMoves(p, index, color, delta, dist + 1)
    case None =>
      match WithinBoundsAndOccupiedByOpponent(p, nextPosition, color)
      case Some(toIndex) => [BaseMove(index, toIndex)]
      case None => []
  }

  predicate UnitDirections(directions: seq<Delta>)
  {
    forall u :: 0 <= u < |directions| ==> UnitDirection(directions[u])
  }

  /** One ray per delta of the table, each from distance 1. */
  function SliderRays(p: Position, index: SquareIndex, color: Color, directions: seq<Delta>): (r: seq<seq<Move>>)
    requires p.ColorImpliesKind() && UnitDirections(directions)
    ensures |r| == |directions|
  {
    seq(|directions|, t requires 0 <= t < |directions| => RayMoves(p, index, color, directions[t], 1))
  }

  /** The slider's moves, ray after ray in table order. */
  function SliderMoves(p: Position, index: SquareIndex, color: Color, directions: seq<Delta>): seq<Move>
    requires p.ColorImpliesKind() && UnitDirections(directions)
  {
    Concat(SliderRays(p, index, color, directions))
  }

  method SliderValidMoves(p: Position, index: SquareIndex, color: Color, directions: seq<Delta>)
    returns (moves: seq<Move>)
    requires p.ColorImpliesKind() && UnitDirections(directions)
    ensures moves == SliderMoves(p, index, color, directions)
  {
    ghost var rays := SliderRays(p, index, color, directions);
    moves := [];
    for t := 0 to |directions|
      invariant moves == Concat(rays[..t])
    {
      var delta := directions[t];
      ghost var before := moves;
      ConcatOneMore(rays, t);
      var dist: nat := 1;
      while true
        invariant 1 <= dist <= 24
        invariant before + RayMoves(p, index, color, delta, 1) == moves + RayMoves(p, index, color, delta, dist)
        decreases 24 - dist
      {
        var nextPosition := ApplyDeltaWithDist(index, delta, dist);
        match WithinBoundsAndEmpty(p, nextPosition) {
          case Some(toIndex) =>
            ClearIsNear(p, index, delta, dist);
            var step := BaseMove(index, toIndex);
            assert RayMoves(p, index, color, delta, dist) == [step] + RayMoves(p, index, color, delta, dist + 1);
            assert moves + RayMoves(p, index, color, delta, dist) ==
              (moves + [step]) + RayMoves(p, index, color, delta, dist + 1);
            moves := moves + [step];
            dist := dist + 1;
          case None =>
            match WithinBoundsAndOccupiedByOpponent(p, nextPosition, color) {
              case None =>
              case Some(toIndex) => moves := moves + [BaseMove(index, toIndex)];
            }
            break;
        }
      }
    }
    assert rays[..|directions|] == rays;
  }

  /** The ray along `delta` stops on an opponent's piece, which the slider may take. */
  predicate RayCaptures(p: Position, index: SquareIndex, color: Color, delta: Delta)
    requires p.ColorImpliesKind() && UnitDirection(delta)
  {
    WithinBoundsAndOccupiedByOpponent(p, ApplyDeltaWithDist(index, delta, RayStop(p, index, delta, 1)), color).Some?
  }

  /**
   * From `dist` on, the ray gives one move per clear square and one more when
   * it stops on an opponent's piece.
   */
  lemma {:induction false} RayMovesLength(p: Position, index: SquareIndex, color: Color, delta: Delta, dist: nat)
    requires p.ColorImpliesKind() && UnitDirection(delta) && dist <= 24
    ensures var stop := RayStop(p, index, delta, dist);
      |RayMoves(p, index, color, delta, dist)| == stop - dist +
        (if WithinBoundsAndOccupiedByOpponent(p, ApplyDeltaWithDist(index, delta, stop), color).Some? then 1 else 0)
    decreases 24 - dist
  {
    if Clear(p, index, delta, dist) {
      ClearIsNear(p, index, delta, dist);
      RayMovesLength(p, index, color, delta, dist + 1);
    }
  }

  /** The move at position `k - dist` of `moves` is a plain move to the square `k` steps away. */
  predicate RayMoveAt(index: SquareIndex, delta: Delta, dist: nat, moves: seq<Move>, k: nat)
    requires dist <= k < dist + |moves|
  {
    var m := moves[k - dist];
    m.from == index && m.promotedPieceKind.None? && m.to == ApplyDeltaWithDist(index, delta, k)
  }

  /** One step of the ray: a clear square gives a move and the ray goes on. */
  lemma RayMovesClearStep(p: Position, index: SquareIndex, color: Color, delta: Delta, dist: nat)
    requires p.ColorImpliesKind() && UnitDirection(delta) && dist <= 24 && Clear(p, index, delta, dist)
    ensures dist < 24
    ensures RayMoves(p, index, color, delta, dist) ==
      [BaseMove(index, ApplyDeltaWithDist(index, delta, dist))] + RayMoves(p, index, color, delta, dist + 1)
  {
    ClearIsNear(p, index, delta, dist);
  }

  /** The last step of the ray: it gives a move only onto an opponent's piece. */
  lemma RayMovesStop(p: Position, index: SquareIndex, color: Color, delta: Delta, dist: nat)
    requires p.ColorImpliesKind() && UnitDirection(delta) && dist <= 24 && !Clear(p, index, delta, dist)
    ensures var nextPosition := ApplyDeltaWithDist(index, delta, dist);
      RayMoves(p, index, color, delta, dist) ==
        if WithinBoundsAndOccupiedByOpponent(p, nextPosition, color).Some? then [BaseMove(index, nextPosition)] else []
  {
  }

  /** The first move of a ray from a clear square goes to that square. */
  lemma RayMovesFirst(p: Position, index: SquareIndex, color: Color, delta: Delta, dist: nat)
    requires p.ColorImpliesKind() && UnitDirection(delta) && dist <= 24
    requires 0 < |RayMoves(p, index, color, delta, dist)|
    ensures RayMoveAt(index, delta, dist, RayMoves(p, index, color, delta, dist), dist)
  {
    if Clear(p, index, delta, dist) {
      RayMovesClearStep(p, index, color, delta, dist);
    } else {
      RayMovesStop(p, index, color, delta, dist);
    }
  }

  /** Past the first, the moves of the ray from `dist` are those from `dist + 1`. */
  lemma RayMovesLater(p: Position, index: SquareIndex, color: Color, delta: Delta, dist: nat, k: nat)
    requires p.ColorImpliesKind() && UnitDirection(delta) && dist <= 24
    requires dist < k < dist + |RayMoves(p, index, color, delta, dist)|
    ensures dist < 24 && k < dist + 1 + |RayMoves(p, index, color, delta, dist + 1)|
    ensures RayMoveAt(index, delta, dist + 1, RayMoves(p, index, color, delta, dist + 1), k) ==>
      RayMoveAt(index, delta, dist, RayMoves(p, index, color, delta, dist), k)
  {
    if Clear(p, index, delta, dist) {
      RayMovesClearStep(p, index, color, delta, dist);
    } else {
      RayMovesStop(p, index, color, delta, dist);
    }
  }

  /** The moves of the ray from `dist` on go to the successive squares from `dist` steps away on. */
  lemma {:induction false} RayMovesElement(p: Position, index: SquareIndex, color: Color, delta: Delta, dist: nat, k: nat)
    requires p.ColorImpliesKind() && UnitDirection(delta) && dist <= 24
    requires dist <= k < dist + |RayMoves(p, index, color, delta, dist)|
    ensures RayMoveAt(index, delta, dist, RayMoves(p, index, color, delta, dist), k)
    decreases k - dist
  {
    if dist == k {
      RayMovesFirst(p, index, color, delta, dist);
    } else {
      RayMovesLater(p, index, color, delta, dist, k);
      RayMovesElement(p, index, color, delta, dist + 1, k);
    }
  }

  /** The alternative, reference description of one ray's moves, in the shape of the attack test's `SliderAt`. */
  ghost predicate RayTarget(p: Position, index: SquareIndex, color: Color, delta: Delta, m: Move)
    requires p.ColorImpliesKind()
  {
    && m == BaseMove(index, m.to)
    && FreeOrOpponent(p, color, m.to)
    && exists k: nat :: RayReaches(p, index, delta, m.to, k)
  }

  /** The `k`-th square along `delta` is `to`, and every square before it is clear. */
  predicate RayReaches(p: Position, index: SquareIndex, delta: Delta, to: int, k: nat)
    requires p.ColorImpliesKind()
  {
    1 <= k && to == ApplyDeltaWithDist(index, delta, k) && forall j :: 1 <= j < k ==> Clear(p, index, delta, j)
  }

  /** Every move of the ray is a plain move along it to a free-or-opponent square with the way clear. */
  lemma RayMovesSound(p: Position, index: SquareIndex, color: Color, delta: Delta, i: nat)
    requires p.ColorImpliesKind() && UnitDirection(delta)
    requires i < |RayMoves(p, index, color, delta, 1)|
    ensures RayTarget(p, index, color, delta, RayMoves(p, index, color, delta, 1)[i])
  {
    var moves := RayMoves(p, index, color, delta, 1);
    var stop := RayStop(p, index, delta, 1);
    var m := moves[i];
    RayMovesLength(p, index, color, delta, 1);
    var k: nat := 1 + i;
    RayMovesElement(p, index, color, delta, 1, k);
    forall j | 1 <= j < k
      ensures Clear(p, index, delta, j)
    {
      RayStopClear(p, index, delta, 1, j);
    }
    assert RayReaches(p, index, delta, m.to, k);
    assert m == BaseMove(index, m.to);
    if k < stop {
      RayStopClear(p, index, delta, 1, k);
      assert WithinBoundsAndEmpty(p, m.to).Some?;
    } else {
      assert k == stop;
      assert WithinBoundsAndOccupiedByOpponent(p, m.to, color).Some?;
      OpponentAt(p, m.to, color);
    }
    assert FreeOrOpponent(p, color, m.to);
  }

  /** Every plain move along the ray to a free-or-opponent square with the way clear is one of its moves. */
  lemma RayMovesComplete(p: Position, index: SquareIndex, color: Color, delta: Delta, m: Move, k: nat)
    requires p.ColorImpliesKind() && UnitDirection(delta)
    requires m == BaseMove(index, m.to) && FreeOrOpponent(p, color, m.to) && RayReaches(p, index, delta, m.to, k)
    ensures m in RayMoves(p, index, color, delta, 1)
  {
    var moves := RayMoves(p, index, color, delta, 1);
    var stop := RayStop(p, index, delta, 1);
    RayMovesLength(p, index, color, delta, 1);
    assert !Clear(p, index, delta, stop);
    assert k <= stop;
    if k == stop {
      OpponentAt(p, m.to, color);
    }
    RayMovesElement(p, index, color, delta, 1, k);
    assert moves[k - 1] == m;
  }

  /**
   * A ray's moves are exactly the plain moves to free-or-opponent squares
   * along it with every square in between empty: a slider never jumps and
   * never takes its own piece.
   */
  lemma RayMovesIff(p: Position, index: SquareIndex, color: Color, delta: Delta, m: Move)
    requires p.ColorImpliesKind() && UnitDirection(delta)
    ensures m in RayMoves(p, index, color, delta, 1) <==> RayTarget(p, index, color, delta, m)
  {
    var moves := RayMoves(p, index, color, delta, 1);
    if m in moves {
      var i :| 0 <= i < |moves| && moves[i] == m;
      RayMovesSound(p, index, color, delta, i);
    }
    if RayTarget(p, index, color, delta, m) {
      var k: nat :| RayReaches(p, index, delta, m.to, k);
      RayMovesComplete(p, index, color, delta, m, k);
    }
  }

  /** The slider's moves are exactly the moves one of its rays gives. */
  lemma SliderMovesIff(p: Position, index: SquareIndex, color: Color, directions: seq<Delta>, m: Move)
    requires p.ColorImpliesKind() && UnitDirections(directions)
    ensures m in SliderMoves(p, index, color, directions) <==>
      exists t :: 0 <= t < |directions| && RayTarget(p, index, color, directions[t], m)
  {
    var rays := SliderRays(p, index, color, directions);
    ConcatMember(rays, m);
    forall t | 0 <= t < |directions|
      ensures m in rays[t] <==> RayTarget(p, index, color, directions[t], m)
    {
      RayMovesIff(p, index, color, directions[t], m);
    }
  }

  // ---------------------------------------------------------------------------
  // Pawns: promotion expansion, pushes and diagonal takes.
  // ---------------------------------------------------------------------------

  /** The last rank of `color`'s pawns. */
  predicate IsPromotionRow(index: SquareIndex, color: Color)
  {
    match color
    case White => index > 55
    case Black => index < 8
  }

  /** The rank `color`'s pawns start on, from which the double push is allowed. */
  predicate IsInitialPawnRow(index: SquareIndex, color: Color)
  {
    match color
    case White => 8 <= index < 16
    case Black => 48 <= index < 56
  }

  /** The moves a pawn step from `from` to `to` expands into. */
  function PromotionMoves(from: SquareIndex, to: SquareIndex, color: Color): seq<Move>
  {
    if !IsPromotionRow(to, color) then [BaseMove(from, to)]
    else seq(|PromotableKinds|, i requires 0 <= i < |PromotableKinds| => Move(from, to, Some(PromotableKinds[i])))
  }

  method MaybePromotionMoves(from: SquareIndex, to: SquareIndex, color: Color) returns (moves: seq<Move>)
    ensures moves == PromotionMoves(from, to, color)
  {
    moves := [];
    if !IsPromotionRow(to, color) {
      moves := moves + [BaseMove(from, to)];
    } else {
      var kinds := PromotableKinds;
      for i := 0 to |kinds|
        invariant |moves| == i
        invariant forall j :: 0 <= j < i ==> moves[j] == Move(from, to, Some(kinds[j]))
      {
        moves := moves + [Move(from, to, Some(kinds[i]))];
      }
    }
  }

  /**
   * Off the promotion row a pawn step is one plain move; on it, exactly four
   * moves promoting to Queen, Rook, Bishop and Knight in that order.
   */
  lemma PromotionMovesFacts(from: SquareIndex, to: SquareIndex, color: Color)
    ensures !IsPromotionRow(to, color) ==> PromotionMoves(from, to, color) == [BaseMove(from, to)]
    ensures IsPromotionRow(to, color) ==>
      PromotionMoves(from, to, color) ==
        [Move(from, to, Some(Queen)), Move(from, to, Some(Rook)), Move(from, to, Some(Bishop)), Move(from, to, Some(Knight))]
  {
    if IsPromotionRow(to, color) {
      var moves := PromotionMoves(from, to, color);
      assert moves[0] == Move(from, to, Some(Queen));
      assert moves[1] == Move(from, to, Some(Rook));
      assert moves[2] == Move(from, to, Some(Bishop));
      assert moves[3] == Move(from, to, Some(Knight));
    }
  }

  /** A pawn step from `from` to `to` carries a promotion exactly on the promotion row, and then never to a Pawn or King. */
  predicate PromotionFits(m: Move, color: Color)
  {
    if IsPromotionRow(m.to, color) then m.promotedPieceKind.Some? && m.promotedPieceKind.value in PromotableKinds
    else m.promotedPieceKind.None?
  }

  lemma PromotionMovesIff(from: SquareIndex, to: SquareIndex, color: Color, m: Move)
    ensures m in PromotionMoves(from, to, color) <==> m.from == from && m.to == to && PromotionFits(m, color)
  {
    PromotionMovesFacts(from, to, color);
  }

  /** The rank offset of a pawn step: up for White, down for Black. */
  function PawnDirection(color: Color): int
  {
    match color
    case White => 1
    case Black => -1
  }

  /** The single push, expanded, and then the double push from the initial rank, both onto empty squares. */
  function PawnPushes(p: Position, index: SquareIndex, color: Color): seq<Move>
    requires p.ColorImpliesKind()
  {
    var dir := PawnDirection(color);
    match WithinBoundsAndEmpty(p, ApplyDelta(index, (dir, 0)))
    case None => []
    case Some(single) =>
      PromotionMoves(index, single, color) +
      if !IsInitialPawnRow(index, color) then []
      else
        match WithinBoundsAndEmpty(p, ApplyDelta(index, (dir * 2, 0)))
        case Some(double) => [BaseMove(index, double)]
        case None => []
  }

  /** The diagonal take towards `fileStep`, expanded, onto the en-passant target or an opponent's piece. */
  function PawnTake(p: Position, index: SquareIndex, color: Color, fileStep: int): seq<Move>
    requires p.ColorImpliesKind()
  {
    match WithinBoundsAndPawnTakeTarget(p, ApplyDelta(index, (PawnDirection(color), fileStep)), color)
    case Some(target) => PromotionMoves(index, target, color)
    case None => []
  }

  /** The pawn's moves: pushes, then the take to the right, then the take to the left. */
  function PawnMoves(p: Position, index: SquareIndex, color: Color): seq<Move>
    requires p.ColorImpliesKind()
  {
    PawnPushes(p, index, color) + PawnTake(p, index, color, 1) + PawnTake(p, index, color, -1)
  }

  method PawnValidMoves(p: Position, index: SquareIndex, color: Color) returns (moves: seq<Move>)
    requires p.ColorImpliesKind()
    ensures moves == PawnMoves(p, index, color)
  {
    moves := [];
    var dir := match color case White => 1 case Black => -1;
    assert dir == PawnDirection(color);
    var toIndexSingle := ApplyDelta(index, (dir, 0));
    match WithinBoundsAndEmpty(p, toIndexSingle) {
      case Some(single) =>
        var promotions := MaybePromotionMoves(index, single, color);
        moves := moves + promotions;
        if IsInitialPawnRow(index, color) {
          var toIndexDouble := ApplyDelta(index, (dir * 2, 0));
          match WithinBoundsAndEmpty(p, toIndexDouble) {
            case Some(double) => moves := moves + [BaseMove(index, double)];
            case None =>
          }
        }
      case None =>
    }
    assert moves == PawnPushes(p, index, color);
    var toIndexTakeRight := ApplyDelta(index, (dir, 1));
    match WithinBoundsAndPawnTakeTarget(p, toIndexTakeRight, color) {
      case Some(target) =>
        var promotions := MaybePromotionMoves(index, target, color);
        moves := moves + promotions;
      case None =>
    }
    assert moves == PawnPushes(p, index, color) + PawnTake(p, index, color, 1);
    var toIndexTakeLeft := ApplyDelta(index, (dir, -1));
    match WithinBoundsAndPawnTakeTarget(p, toIndexTakeLeft, color) {
      case Some(target) =>
        var promotions := MaybePromotionMoves(index, target, color);
        moves := moves + promotions;
      case None =>
    }
  }

  /** The single push goes to the empty square one rank ahead. */
  predicate SinglePushTarget(p: Position, index: SquareIndex, color: Color, sq: int)
    requires p.ColorImpliesKind()
  {
    sq == ApplyDelta(index, (PawnDirection(color), 0)) && 0 <= sq < 64 && MaybePieceAt(p, sq).None?
  }

  /** The double push goes, from the initial rank, past an empty square to the empty square two ranks ahead. */
  predicate DoublePushTarget(p: Position, index: SquareIndex, color: Color, sq: int)
    requires p.ColorImpliesKind()
  {
    var dir := PawnDirection(color);
    && IsInitialPawnRow(index, color)
    && SinglePushTarget(p, index, color, ApplyDelta(index, (dir, 0)))
    && sq == ApplyDelta(index, (dir * 2, 0)) && 0 <= sq < 64 && MaybePieceAt(p, sq).None?
  }

  /** A take goes one rank ahead and one file aside, onto the en-passant target or an opponent's piece. */
  predicate TakeTarget(p: Position, index: SquareIndex, color: Color, fileStep: int, sq: int)
    requires p.ColorImpliesKind()
  {
    && sq == ApplyDelta(index, (PawnDirection(color), fileStep)) && 0 <= sq < 64
    && (p.EnPassantTargetSquare() == Some(sq) || (MaybePieceAt(p, sq).Some? && MaybePieceAt(p, sq).value.color != color))
  }

  lemma PawnTakeTargetAt(p: Position, sq: int, color: Color)
    requires p.ColorImpliesKind()
    ensures WithinBoundsAndPawnTakeTarget(p, sq, color).Some? <==>
      0 <= sq < 64 &&
      (p.EnPassantTargetSquare() == Some(sq) || (MaybePieceAt(p, sq).Some? && MaybePieceAt(p, sq).value.color != color))
  {
  }

  /** The initial ranks lie two ranks short of the promotion rows, so a double push is never a promotion. */
  lemma DoublePushNotPromotion(index: SquareIndex, color: Color)
    requires IsInitialPawnRow(index, color)
    ensures var sq := ApplyDelta(index, (PawnDirection(color) * 2, 0));
      0 <= sq < 64 && !IsPromotionRow(sq, color)
  {
  }

  lemma PawnPushesIff(p: Position, index: SquareIndex, color: Color, m: Move)
    requires p.ColorImpliesKind()
    ensures m in PawnPushes(p, index, color) <==>
      (m.from == index &&
       ((SinglePushTarget(p, index, color, m.to) && PromotionFits(m, color)) ||
        (DoublePushTarget(p, index, color, m.to) && m.promotedPieceKind.None?)))
  {
    var dir := PawnDirection(color);
    var single := ApplyDelta(index, (dir, 0));
    match WithinBoundsAndEmpty(p, single) {
      case None =>
      case Some(s) =>
        PromotionMovesIff(index, s, color, m);
        if IsInitialPawnRow(index, color) {
          DoublePushNotPromotion(index, color);
        }
    }
  }

  lemma PawnTakeIff(p: Position, index: SquareIndex, color: Color, fileStep: int, m: Move)
    requires p.ColorImpliesKind()
    ensures m in PawnTake(p, index, color, fileStep) <==>
      m.from == index && TakeTarget(p, index, color, fileStep, m.to) && PromotionFits(m, color)
  {
    var sq := ApplyDelta(index, (PawnDirection(color), fileStep));
    PawnTakeTargetAt(p, sq, color);
    match WithinBoundsAndPawnTakeTarget(p, sq, color) {
      case None =>
      case Some(t) => PromotionMovesIff(index, t, color, m);
    }
  }

  /**
   * A pawn's moves are exactly: the single push onto an empty square, the
   * double push from the initial rank over two empty squares, and the takes
   * one file aside onto the en-passant target or an opponent's piece; each
   * push and take carries a promotion exactly on the promotion row.
   */
  lemma PawnMovesIff(p: Position, index: SquareIndex, color: Color, m: Move)
    requires p.ColorImpliesKind()
    ensures m in PawnMoves(p, index, color) <==>
      (m.from == index &&
       (((SinglePushTarget(p, index, color, m.to) || TakeTarget(p, index, color, 1, m.to) ||
          TakeTarget(p, index, color, -1, m.to)) && PromotionFits(m, color)) ||
        (DoublePushTarget(p, index, color, m.to) && m.promotedPieceKind.None?)))
  {
    PawnPushesIff(p, index, color, m);
    PawnTakeIff(p, index, color, 1, m);
    PawnTakeIff(p, index, color, -1, m);
  }

  // ---------------------------------------------------------------------------
  // Castling eligibility. The squares assume kings on 3 and 59, although the
  // default position puts them on 4 and 60.
  // ---------------------------------------------------------------------------

  function KingsideEmptySquares(color: Color): seq<SquareIndex>
  {
    match color
    case White => [1, 2]
    case Black => [57, 58]
  }

  function KingsideSafeSquares(color: Color): seq<SquareIndex>
  {
    match color
    case White => [1, 2, 3]
    case Black => [57, 58, 59]
  }

  function QueensideEmptySquares(color: Color): seq<SquareIndex>
  {
    match color
    case White => [4, 5, 6]
    case Black => [60, 61, 62]
  }

  function QueensideSafeSquares(color: Color): seq<SquareIndex>
  {
    match color
    case White => [3, 4, 5]
    case Black => [59, 60, 61]
  }

  predicate OnBoard(squares: seq<SquareIndex>)
  {
    forall u :: 0 <= u < |squares| ==> squares[u] < 64
  }

  predicate AllEmpty(p: Position, squares: seq<SquareIndex>)
    requires p.ColorImpliesKind() && OnBoard(squares)
  {
    forall u :: 0 <= u < |squares| ==> p.At(squares[u]) == Empty
  }

  /** No square of `squares` is attacked by the other side than `color`. */
  predicate NoneAttacked(p: Position, color: Color, squares: seq<SquareIndex>)
    requires p.ColorImpliesKind()
    decreases |squares|
  {
    |squares| == 0 || (!IsSquareCheckedSpec(p, squares[0], color) && NoneAttacked(p, color, squares[1..]))
  }

  /** Every square of `emptySquares` is empty and no square of `safeSquares` is attacked by the other side. */
  predicate CastlingSquaresFree(p: Position, color: Color, emptySquares: seq<SquareIndex>, safeSquares: seq<SquareIndex>)
    requires p.ColorImpliesKind() && OnBoard(emptySquares)
  {
    AllEmpty(p, emptySquares) && NoneAttacked(p, color, safeSquares)
  }

  /** The first loop of both castling tests: false at the first square that is not empty. */
  method CheckEmptySquares(p: Position, squares: seq<SquareIndex>) returns (r: bool)
    requires p.ColorImpliesKind() && OnBoard(squares)
    ensures r == AllEmpty(p, squares)
  {
    for i := 0 to |squares|
      invariant forall u :: 0 <= u < i ==> p.At(squares[u]) == Empty
    {
      if p.At(squares[i]) != Empty {
        return false;
      }
    }
    return true;
  }

  /** The second loop of both castling tests: false at the first square the other side attacks. */
  method CheckSafeSquares(p: Position, color: Color, squares: seq<SquareIndex>) returns (r: bool)
    requires p.ColorImpliesKind()
    ensures r == NoneAttacked(p, color, squares)
  {
    for i := 0 to |squares|
      invariant NoneAttacked(p, color, squares) == NoneAttacked(p, color, squares[i..])
    {
      assert squares[i..][1..] == squares[i + 1..];
      var checked := IsSquareChecked(p, squares[i], color);
      if checked {
        return false;
      }
    }
    return true;
  }

  method CheckCastlingSquares(p: Position, color: Color, emptySquares: seq<SquareIndex>, safeSquares: seq<SquareIndex>)
    returns (r: bool)
    requires p.ColorImpliesKind() && OnBoard(emptySquares)
    ensures r == CastlingSquaresFree(p, color, emptySquares, safeSquares)
  {
    r := CheckEmptySquares(p, emptySquares);
    if !r {
      return;
    }
    r := CheckSafeSquares(p, color, safeSquares);
  }

  predicate KingsideRight(p: Position, color: Color)
  {
    match color
    case White => p.CanWhiteCastleKingside()
    case Black => p.CanBlackCastleKingside()
  }

  predicate QueensideRight(p: Position, color: Color)
  {
    match color
    case White => p.CanWhiteCastleQueenside()
    case Black => p.CanBlackCastleQueenside()
  }

  predicate KingsideCastlePossible(p: Position, color: Color)
    requires p.ColorImpliesKind()
  {
    KingsideRight(p, color) && CastlingSquaresFree(p, color, KingsideEmptySquares(color), KingsideSafeSquares(color))
  }

  predicate QueensideCastlePossible(p: Position, color: Color)
    requires p.ColorImpliesKind()
  {
    QueensideRight(p, color) && CastlingSquaresFree(p, color, QueensideEmptySquares(color), QueensideSafeSquares(color))
  }

  method IsKingsideCastlePossible(p: Position, color: Color) returns (r: bool)
    requires p.ColorImpliesKind()
    ensures r == KingsideCastlePossible(p, color)
  {
    if color == White && !p.CanWhiteCastleKingside() {
      return false;
    }
    if color == Black && !p.CanBlackCastleKingside() {
      return false;
    }
    r := CheckCastlingSquares(p, color, KingsideEmptySquares(color), KingsideSafeSquares(color));
  }

  method IsQueensideCastlePossible(p: Position, color: Color) returns (r: bool)
    requires p.ColorImpliesKind()
    ensures r == QueensideCastlePossible(p, color)
  {
    if color == White && !p.CanWhiteCastleQueenside() {
      return false;
    }
    if color == Black && !p.CanBlackCastleQueenside() {
      return false;
    }
    r := CheckCastlingSquares(p, color, QueensideEmptySquares(color), QueensideSafeSquares(color));
  }

  /** The attack test at three squares. */
  predicate NoneOfThreeAttacked(p: Position, color: Color, a: SquareIndex, b: SquareIndex, c: SquareIndex)
    requires p.ColorImpliesKind()
  {
    !IsSquareCheckedSpec(p, a, color) && !IsSquareCheckedSpec(p, b, color) && !IsSquareCheckedSpec(p, c, color)
  }

  lemma NoneAttackedCons(p: Position, color: Color, a: SquareIndex, rest: seq<SquareIndex>)
    requires p.ColorImpliesKind()
    ensures NoneAttacked(p, color, [a] + rest) == (!IsSquareCheckedSpec(p, a, color) && NoneAttacked(p, color, rest))
  {
    assert ([a] + rest)[1..] == rest;
  }

  lemma NoneAttackedOfThree(p: Position, color: Color, a: SquareIndex, b: SquareIndex, c: SquareIndex)
    requires p.ColorImpliesKind()
    ensures NoneAttacked(p, color, [a, b, c]) <==> NoneOfThreeAttacked(p, color, a, b, c)
  {
    NoneAttackedCons(p, color, c, []);
    assert [c] == [c] + [];
    NoneAttackedCons(p, color, b, [c]);
    assert [b, c] == [b] + [c];
    NoneAttackedCons(p, color, a, [b, c]);
    assert [a, b, c] == [a] + [b, c];
  }

  lemma AllEmptyOfThree(p: Position, a: SquareIndex, b: SquareIndex, c: SquareIndex)
    requires p.ColorImpliesKind() && a < 64 && b < 64 && c < 64
    ensures AllEmpty(p, [a, b, c]) <==> p.At(a) == Empty && p.At(b) == Empty && p.At(c) == Empty
  {
    var squares := [a, b, c];
    assert squares[0] == a && squares[1] == b && squares[2] == c;
    forall u | 0 <= u < 3
      ensures squares[u] == a || squares[u] == b || squares[u] == c
    {
    }
  }

  lemma AllEmptyOfTwo(p: Position, a: SquareIndex, b: SquareIndex)
    requires p.ColorImpliesKind() && a < 64 && b < 64
    ensures AllEmpty(p, [a, b]) <==> p.At(a) == Empty && p.At(b) == Empty
  {
    var squares := [a, b];
    assert squares[0] == a && squares[1] == b;
    forall u | 0 <= u < 2
      ensures squares[u] == a || squares[u] == b
    {
    }
  }

  /** White may castle kingside iff the right is held, 1 and 2 are empty and none of 1, 2, 3 is attacked. */
  lemma WhiteKingsideCastleIff(p: Position)
    requires p.ColorImpliesKind()
    ensures KingsideCastlePossible(p, White) <==>
      (p.CanWhiteCastleKingside() && p.At(1) == Empty && p.At(2) == Empty && NoneOfThreeAttacked(p, White, 1, 2, 3))
  {
    NoneAttackedOfThree(p, White, 1, 2, 3);
    AllEmptyOfTwo(p, 1, 2);
  }

  /** Black may castle kingside iff the right is held, 57 and 58 are empty and none of 57, 58, 59 is attacked. */
  lemma BlackKingsideCastleIff(p: Position)
    requires p.ColorImpliesKind()
    ensures KingsideCastlePossible(p, Black) <==>
      (p.CanBlackCastleKingside() && p.At(57) == Empty && p.At(58) == Empty && NoneOfThreeAttacked(p, Black, 57, 58, 59))
  {
    NoneAttackedOfThree(p, Black, 57, 58, 59);
    AllEmptyOfTwo(p, 57, 58);
  }

  /** White may castle queenside iff the right is held, 4, 5 and 6 are empty and none of 3, 4, 5 is attacked. */
  lemma WhiteQueensideCastleIff(p: Position)
    requires p.ColorImpliesKind()
    ensures QueensideCastlePossible(p, White) <==>
      (p.CanWhiteCastleQueenside() && p.At(4) == Empty && p.At(5) == Empty && p.At(6) == Empty &&
       NoneOfThreeAttacked(p, White, 3, 4, 5))
  {
    NoneAttackedOfThree(p, White, 3, 4, 5);
    AllEmptyOfThree(p, 4, 5, 6);
  }

  /** Black may castle queenside iff the right is held, 60, 61 and 62 are empty and none of 59, 60, 61 is attacked. */
  lemma BlackQueensideCastleIff(p: Position)
    requires p.ColorImpliesKind()
    ensures QueensideCastlePossible(p, Black) <==>
      (p.CanBlackCastleQueenside() && p.At(60) == Empty && p.At(61) == Empty && p.At(62) == Empty &&
       NoneOfThreeAttacked(p, Black, 59, 60, 61))
  {
    NoneAttackedOfThree(p, Black, 59, 60, 61);
    AllEmptyOfThree(p, 60, 61, 62);
  }

  // ---------------------------------------------------------------------------
  // Dispatch on the piece kind.
  // ---------------------------------------------------------------------------

  lemma TablesAreUnit()
    ensures UnitDirections(RookDirections) && UnitDirections(BishopDirections) && UnitDirections(KingDirections)
  {
  }

  /** The pseudo-legal moves of `piece` standing on `index`; the queen slides along the king's table. */
  function PieceMoves(p: Position, index: SquareIndex, piece: Piece): seq<Move>
    requires p.ColorImpliesKind()
  {
    TablesAreUnit();
    match piece.kind
    case Pawn => PawnMoves(p, index, piece.color)
    case Rook => SliderMoves(p, index, piece.color, RookDirections)
    case Bishop => SliderMoves(p, index, piece.color, BishopDirections)
    case Queen => SliderMoves(p, index, piece.color, KingDirections)
    case Knight => LeaperMoves(p, index, piece.color, KnightDirections)
    case King => LeaperMoves(p, index, piece.color, KingDirections)
  }

  method KnightValidMoves(p: Position, index: SquareIndex, color: Color) returns (moves: seq<Move>)
    requires p.ColorImpliesKind()
    ensures moves == LeaperMoves(p, index, color, KnightDirections)
  {
    moves := LeaperValidMoves(p, index, color, KnightDirections);
  }

  method KingValidMoves(p: Position, index: SquareIndex, color: Color) returns (moves: seq<Move>)
    requires p.ColorImpliesKind()
    ensures moves == LeaperMoves(p, index, color, KingDirections)
  {
    moves := LeaperValidMoves(p, index, color, KingDirections);
  }

  method RookValidMoves(p: Position, index: SquareIndex, color: Color) returns (moves: seq<Move>)
    requires p.ColorImpliesKind()
    ensures UnitDirections(RookDirections) && moves == SliderMoves(p, index, color, RookDirections)
  {
    TablesAreUnit();
    moves := SliderValidMoves(p, index, color, RookDirections);
  }

  method BishopValidMoves(p: Position, index: SquareIndex, color: Color) returns (moves: seq<Move>)
    requires p.ColorImpliesKind()
    ensures UnitDirections(BishopDirections) && moves == SliderMoves(p, index, color, BishopDirections)
  {
    TablesAreUnit();
    moves := SliderValidMoves(p, index, color, BishopDirections);
  }

  method QueenValidMoves(p: Position, index: SquareIndex, color: Color) returns (moves: seq<Move>)
    requires p.ColorImpliesKind()
    ensures UnitDirections(KingDirections) && moves == SliderMoves(p, index, color, KingDirections)
  {
    TablesAreUnit();
    moves := SliderValidMoves(p, index, color, KingDirections);
  }

  method PieceValidMoves(p: Position, index: SquareIndex, piece: Piece) returns (moves: seq<Move>)
    requires p.ColorImpliesKind()
    ensures moves == PieceMoves(p, index, piece)
  {
    match piece.kind {
      case Pawn => moves := PawnValidMoves(p, index, piece.color);
      case Rook => moves := RookValidMoves(p, index, piece.color);
      case Bishop => moves := BishopValidMoves(p, index, piece.color);
      case Queen => moves := QueenValidMoves(p, index, piece.color);
      case Knight => moves := KnightValidMoves(p, index, piece.color);
      case King => moves := KingValidMoves(p, index, piece.color);
    }
  }

  /**
   * Every move of a piece starts on its square and ends on the board; only a
   * pawn, taking en passant, may end on a square that is not free or held by
   * the opponent.
   */
  lemma PieceMovesTargets(p: Position, index: SquareIndex, piece: Piece, m: Move)
    requires p.ColorImpliesKind() && m in PieceMoves(p, index, piece)
    ensures m.from == index && 0 <= m.to < 64
    ensures piece.kind != Pawn ==> FreeOrOpponent(p, piece.color, m.to)
  {
    TablesAreUnit();
    match piece.kind {
      case Pawn => PawnMovesIff(p, index, piece.color, m);
      case Rook => SliderMovesIff(p, index, piece.color, RookDirections, m);
      case Bishop => SliderMovesIff(p, index, piece.color, BishopDirections, m);
      case Queen => SliderMovesIff(p, index, piece.color, KingDirections, m);
      case Knight => LeaperMovesIff(p, index, piece.color, KnightDirections, m);
      case King => LeaperMovesIff(p, index, piece.color, KingDirections, m);
    }
  }

  // ---------------------------------------------------------------------------
  // All pseudo-legal moves of one side, piece by piece in increasing square order.
  // ---------------------------------------------------------------------------

  predicate SquaresOnBoard(l: seq<(int, Piece)>)
  {
    forall t :: 0 <= t < |l| ==> 0 <= l[t].0 < 64
  }

  /** Per visited square, the moves of its piece when it has colour `color`, and nothing otherwise. */
  function PossibleParts(p: Position, color: Color, l: seq<(int, Piece)>): (r: seq<seq<Move>>)
    requires p.ColorImpliesKind() && SquaresOnBoard(l)
    ensures |r| == |l|
  {
    seq(|l|, t requires 0 <= t < |l| => if l[t].1.color == color then PieceMoves(p, l[t].0, l[t].1) else [])
  }

  function PossibleMoves(p: Position, color: Color): seq<Move>
    requires p.ColorImpliesKind()
  {
    PieceListFacts(p);
    Concat(PossibleParts(p, color, PieceList(p)))
  }

  method AllPossibleMoves(p: Position, color: Color) returns (moves: seq<Move>)
    requires p.ColorImpliesKind()
    ensures moves == PossibleMoves(p, color)
  {
    var visits := ForEachPiece(p);
    PieceListFacts(p);
    ghost var parts := PossibleParts(p, color, visits);
    moves := [];
    for i := 0 to |visits|
      invariant moves == Concat(parts[..i])
    {
      var (index, piece) := visits[i];
      ConcatOneMore(parts, i);
      if piece.color == color {
        var validMoves := PieceValidMoves(p, index, piece);
        moves := moves + validMoves;
      }
    }
    assert parts[..|visits|] == parts;
  }

  /**
   * The side's pseudo-legal moves are exactly the moves of its pieces:
   * nothing from an empty square, nothing of the other colour.
   */
  lemma PossibleMovesIff(p: Position, color: Color, m: Move)
    requires p.ColorImpliesKind()
    ensures m in PossibleMoves(p, color) <==>
      (MaybePieceAt(p, m.from).Some? && MaybePieceAt(p, m.from).value.color == color &&
       m in PieceMoves(p, m.from, MaybePieceAt(p, m.from).value))
  {
    var l := PieceList(p);
    PieceListFacts(p);
    var parts := PossibleParts(p, color, l);
    ConcatMember(parts, m);
    if m in PossibleMoves(p, color) {
      var t :| 0 <= t < |parts| && m in parts[t];
      PieceMovesTargets(p, l[t].0, l[t].1, m);
      assert MaybePieceAt(p, m.from) == Some(l[t].1);
    }
    if MaybePieceAt(p, m.from).Some? && MaybePieceAt(p, m.from).value.color == color &&
       m in PieceMoves(p, m.from, MaybePieceAt(p, m.from).value)
    {
      assert m.from in p.ColorMask();
      var t :| 0 <= t < |l| && l[t].0 == m.from;
      assert m in parts[t];
    }
  }

  /** The moves are grouped by piece in increasing square order. */
  lemma PossibleMovesOrdered(p: Position, color: Color)
    requires p.ColorImpliesKind()
    ensures SortedByFrom(PossibleMoves(p, color))
  {
    var l := PieceList(p);
    PieceListFacts(p);
    var parts := PossibleParts(p, color, l);
    var keys := seq(|l|, t requires 0 <= t < |l| => l[t].0);
    forall t, m: Move | 0 <= t < |parts| && m in parts[t]
      ensures m.from == keys[t]
    {
      PieceMovesTargets(p, l[t].0, l[t].1, m);
    }
    ConcatSorted(parts, keys);
  }

  predicate SortedByFrom(moves: seq<Move>)
  {
    forall i, j :: 0 <= i <= j < |moves| ==> moves[i].from <= moves[j].from
  }

  /** Parts whose moves all start on the part's key, with increasing keys, concatenate in order of the start square. */
  lemma {:induction false} ConcatSorted(parts: seq<seq<Move>>, keys: seq<int>)
    requires |keys| == |parts|
    requires forall t, m: Move :: 0 <= t < |parts| && m in parts[t] ==> m.from == keys[t]
    requires forall a, b :: 0 <= a < b < |keys| ==> keys[a] < keys[b]
    ensures SortedByFrom(Concat(parts))
    decreases |parts|
  {
    if |parts| > 0 {
      var n := |parts| - 1;
      var front := parts[..n];
      ConcatSorted(front, keys[..n]);
      var a := Concat(front);
      var b := parts[n];
      forall i | 0 <= i < |a|
        ensures a[i].from <= keys[n]
      {
        ConcatMember(front, a[i]);
        var t :| 0 <= t < |front| && a[i] in front[t];
        assert a[i] in parts[t];
      }
      forall i | 0 <= i < |b|
        ensures b[i].from == keys[n]
      {
        assert b[i] in parts[n];
      }
      assert Concat(parts) == a + b;
    }
  }

  // ---------------------------------------------------------------------------
  // The legality filter: each move is applied to a copy of the board and kept
  // when the mover's king is not attacked afterwards.
  // ---------------------------------------------------------------------------

  /**
   * The filter's verdict on one move: None when the source panics (a source
   * square off the board or empty, or a move `move_piece` cannot apply),
   * otherwise whether the king of the moving side is safe after the move.
   */
  function KeepMove(p: Position, m: Move): Option<bool>
    requires p.ColorImpliesKind()
  {
    if m.from >= 64 then None
    else
      match PieceAtSourceOrPanic(p, m.from)
      case Err(_) => None
      case Ok(piece) =>
        match m.AfterMovePiece(p)
        case Err(_) => None
        case Ok(after) =>
          m.MovePieceKeepsCoherent(p);
          Some(!IsSquareCheckedSpec(after, FindKing(after, piece.color), piece.color))
  }

  /** The verdict on every move of the list. */
  function Verdicts(p: Position, moves: seq<Move>): (r: seq<Option<bool>>)
    requires p.ColorImpliesKind()
    ensures |r| == |moves|
  {
    seq(|moves|, i requires 0 <= i < |moves| => KeepMove(p, moves[i]))
  }

  /** The filtered list, or None when some move panics. */
  function FilteredMoves(p: Position, moves: seq<Move>): Option<seq<Move>>
    requires p.ColorImpliesKind()
  {
    Select(moves, Verdicts(p, moves))
  }

  /** The body of the filter's closure: clone, apply, test the king. */
  method KeepsKingSafe(p: Position, mov: Move) returns (r: Option<bool>)
    requires p.ColorImpliesKind()
    ensures r == KeepMove(p, mov)
  {
    if mov.from >= 64 {
      return None;
    }
    var source := PieceAtSourceOrPanic(p, mov.from);
    if source.Err? {
      return None;
    }
    var piece := source.value;
    var boardAfterMove := new ChessBoard.FromPosition(p);
    var ok := mov.MovePiece(boardAfterMove);
    if !ok {
      return None;
    }
    mov.MovePieceKeepsCoherent(p);
    var checked := IsKingChecked(boardAfterMove.State(), piece.color);
    r := Some(!checked);
  }

  method FilterKingGoingUnderCheck(p: Position, moves: seq<Move>) returns (r: Option<seq<Move>>)
    requires p.ColorImpliesKind()
    ensures r == FilteredMoves(p, moves)
  {
    ghost var verdicts := Verdicts(p, moves);
    var kept := [];
    for i := 0 to |moves|
      invariant Select(moves[..i], verdicts[..i]) == Some(kept)
    {
      var keep := KeepsKingSafe(p, moves[i]);
      assert verdicts[i] == keep;
      if keep.None? {
        SelectFailsFrom(moves, verdicts, i, |moves|);
        assert moves[..|moves|] == moves && verdicts[..|moves|] == verdicts;
        return None;
      }
      SelectOneMore(moves, verdicts, i, kept);
      if keep.value {
        kept := kept + [moves[i]];
      }
    }
    assert moves[..|moves|] == moves && verdicts[..|moves|] == verdicts;
    r := Some(kept);
  }

  /** The selection keeps the order of the input. */
  lemma {:induction false} SelectSorted(moves: seq<Move>, verdicts: seq<Option<bool>>)
    requires |verdicts| == |moves| && Select(moves, verdicts).Some? && SortedByFrom(moves)
    ensures SortedByFrom(Select(moves, verdicts).value)
    decreases |moves|
  {
    if |moves| > 0 {
      var n := |moves| - 1;
      var front := moves[..n];
      assert SortedByFrom(front) by {
        forall i, j | 0 <= i <= j < |front|
          ensures front[i].from <= front[j].from
        {
          assert front[i] == moves[i] && front[j] == moves[j];
        }
      }
      SelectSorted(front, verdicts[..n]);
      var kept := Select(front, verdicts[..n]).value;
      forall i | 0 <= i < |kept|
        ensures kept[i].from <= moves[n].from
      {
        SelectIff(front, verdicts[..n], kept[i]);
        var k :| 0 <= k < |front| && front[k] == kept[i] && verdicts[..n][k] == Some(true);
        assert moves[k] == kept[i];
      }
    }
  }

  /** The filter succeeds exactly when no move panics. */
  lemma FilteredMovesDefined(p: Position, moves: seq<Move>)
    requires p.ColorImpliesKind()
    ensures FilteredMoves(p, moves).Some? <==> forall m :: m in moves ==> KeepMove(p, m).Some?
  {
    var verdicts := Verdicts(p, moves);
    SelectDefined(moves, verdicts);
    if forall i :: 0 <= i < |verdicts| ==> verdicts[i].Some? {
      forall m | m in moves
        ensures KeepMove(p, m).Some?
      {
        var i :| 0 <= i < |moves| && moves[i] == m;
        assert verdicts[i].Some?;
      }
    }
  }

  /** The filter keeps exactly the moves after which the mover's king is safe. */
  lemma FilteredMovesIff(p: Position, moves: seq<Move>, m: Move)
    requires p.ColorImpliesKind() && FilteredMoves(p, moves).Some?
    ensures m in FilteredMoves(p, moves).value <==> m in moves && KeepMove(p, m) == Some(true)
  {
    if m in FilteredMoves(p, moves).value {
      FilteredMoveWasKept(p, moves, m);
    }
    if m in moves && KeepMove(p, m) == Some(true) {
      SafeMoveIsKept(p, moves, m);
    }
  }

  lemma FilteredMoveWasKept(p: Position, moves: seq<Move>, m: Move)
    requires p.ColorImpliesKind() && FilteredMoves(p, moves).Some? && m in FilteredMoves(p, moves).value
    ensures m in moves && KeepMove(p, m) == Some(true)
  {
    var verdicts := Verdicts(p, moves);
    SelectIff(moves, verdicts, m);
    var i :| 0 <= i < |moves| && moves[i] == m && verdicts[i] == Some(true);
  }

  lemma SafeMoveIsKept(p: Position, moves: seq<Move>, m: Move)
    requires p.ColorImpliesKind() && FilteredMoves(p, moves).Some? && m in moves && KeepMove(p, m) == Some(true)
    ensures m in FilteredMoves(p, moves).value
  {
    var verdicts := Verdicts(p, moves);
    var i :| 0 <= i < |moves| && moves[i] == m;
    VerdictOf(p, moves, i);
    SelectKeeps(moves, verdicts, i);
  }

  lemma VerdictOf(p: Position, moves: seq<Move>, i: nat)
    requires p.ColorImpliesKind() && i < |moves|
    ensures Verdicts(p, moves)[i] == KeepMove(p, moves[i])
  {
  }

  /**
   * No generated move makes the filter panic: it starts on a square holding a
   * piece, and a pawn lands at least a rank ahead, so the pawn it would take
   * en passant is on the board.
   */
  lemma GeneratedMoveKept(p: Position, color: Color, m: Move)
    requires p.ColorImpliesKind() && m in PossibleMoves(p, color)
    ensures KeepMove(p, m).Some?
  {
    PossibleMovesIff(p, color, m);
    var piece := MaybePieceAt(p, m.from).value;
    PieceMovesTargets(p, m.from, piece, m);
    if piece.kind == Pawn {
      PawnMovesAhead(p, m.from, piece.color, m);
    }
    m.MovePieceSucceeds(p);
    KeepMoveDefined(p, m);
  }

  /** A pawn of an on-board square moves one or two ranks ahead, so never onto the rank behind the target's. */
  lemma PawnMovesAhead(p: Position, index: SquareIndex, color: Color, m: Move)
    requires p.ColorImpliesKind() && index < 64 && m in PawnMoves(p, index, color)
    ensures color == White ==> m.to >= 8
    ensures color == Black ==> m.to < 56
  {
    PawnMovesIff(p, index, color, m);
    var dir := PawnDirection(color);
    StepAhead(index, color, (dir, 0));
    StepAhead(index, color, (dir * 2, 0));
    StepAhead(index, color, (dir, 1));
    StepAhead(index, color, (dir, -1));
  }

  /** A step of one or two ranks in the pawn's direction from an on-board square never lands on the rank behind. */
  lemma StepAhead(index: SquareIndex, color: Color, delta: Delta)
    requires index < 64 && (delta.0 == PawnDirection(color) || delta.0 == 2 * PawnDirection(color))
    ensures var r := ApplyDelta(index, delta);
      r != -1 ==> (color == White ==> r >= 8) && (color == Black ==> r < 56)
  {
  }

  /** The verdict is defined once the source square holds a piece and the move applies. */
  lemma KeepMoveDefined(p: Position, m: Move)
    requires p.ColorImpliesKind() && m.from < 64 && m.from in p.ColorMask() && m.AfterMovePiece(p).Ok?
    ensures KeepMove(p, m).Some?
  {
  }

  /** The filter never panics on the side's pseudo-legal moves. */
  lemma FilterTotal(p: Position, color: Color)
    requires p.ColorImpliesKind()
    ensures FilteredMoves(p, PossibleMoves(p, color)).Some?
  {
    forall m | m in PossibleMoves(p, color)
      ensures KeepMove(p, m).Some?
    {
      GeneratedMoveKept(p, color, m);
    }
    FilteredMovesDefined(p, PossibleMoves(p, color));
  }

  /** The kept moves come in the order of the input. */
  lemma FilteredMovesSorted(p: Position, moves: seq<Move>)
    requires p.ColorImpliesKind() && FilteredMoves(p, moves).Some? && SortedByFrom(moves)
    ensures SortedByFrom(FilteredMoves(p, moves).value)
  {
    SelectSorted(moves, Verdicts(p, moves));
  }

  /** A kept move leaves the mover's king unattacked. */
  lemma KeptMoveLeavesKingSafe(p: Position, moves: seq<Move>, m: Move)
    requires p.ColorImpliesKind() && FilteredMoves(p, moves).Some? && m in FilteredMoves(p, moves).value
    ensures m.from < 64 && m.from in p.ColorMask() && m.AfterMovePiece(p).Ok?
    ensures m.AfterMovePiece(p).value.ColorImpliesKind()
    ensures var color := p.At(m.from).piece.color;
      var after := m.AfterMovePiece(p).value;
      !IsSquareCheckedSpec(after, FindKing(after, color), color)
  {
    FilteredMovesIff(p, moves, m);
    m.MovePieceKeepsCoherent(p);
  }

  // ---------------------------------------------------------------------------
  // All legal moves: the filtered pseudo-legal moves, then the castling moves.
  // ---------------------------------------------------------------------------

  function KingsideCastle(color: Color): (m: Move)
    ensures m.promotedPieceKind.None?
  {
    match color
    case White => BaseMove(3, 1)
    case Black => BaseMove(59, 57)
  }

  function QueensideCastle(color: Color): (m: Move)
    ensures m.promotedPieceKind.None?
  {
    match color
    case White => BaseMove(3, 5)
    case Black => BaseMove(59, 61)
  }

  /** The castling moves appended after the filter, kingside first; they are not filtered. */
  function CastleMoves(p: Position, color: Color): seq<Move>
    requires p.ColorImpliesKind()
  {
    CastleMovesWhen(color, KingsideCastlePossible(p, color), QueensideCastlePossible(p, color))
  }

  function CastleMovesWhen(color: Color, kingside: bool, queenside: bool): seq<Move>
  {
    (if kingside then [KingsideCastle(color)] else []) + (if queenside then [QueensideCastle(color)] else [])
  }

  /** `all_valid_moves`, or None when the filter panics. */
  function AllValidMovesOf(p: Position, color: Color): Option<seq<Move>>
    requires p.ColorImpliesKind()
  {
    match FilteredMoves(p, PossibleMoves(p, color))
    case None => None
    case Some(kept) => Some(kept + CastleMoves(p, color))
  }

  /** Pushes the castling moves whose conditions were found to hold, kingside first. */
  method AppendCastling(color: Color, kept: seq<Move>, kingside: bool, queenside: bool) returns (moves: seq<Move>)
    ensures moves == kept + CastleMovesWhen(color, kingside, queenside)
  {
    moves := kept;
    if kingside {
      moves := moves + [KingsideCastle(color)];
    }
    if queenside {
      moves := moves + [QueensideCastle(color)];
    }
  }

  method AllValidMoves(p: Position, color: Color) returns (r: Option<seq<Move>>)
    requires p.ColorImpliesKind()
    ensures r == AllValidMovesOf(p, color) && r.Some?
  {
    FilterTotal(p, color);
    var possible := AllPossibleMoves(p, color);
    var filtered := FilterKingGoingUnderCheck(p, possible);
    if filtered.None? {
      return None;
    }
    var kingside := IsKingsideCastlePossible(p, color);
    var queenside := IsQueensideCastlePossible(p, color);
    var moves := AppendCastling(color, filtered.value, kingside, queenside);
    r := Some(moves);
  }

  /**
   * A legal move is either a pseudo-legal move of a piece of `color` after
   * which that side's king is safe, or a castling move whose conditions hold.
   */
  lemma ValidMovesIff(p: Position, color: Color, m: Move)
    requires p.ColorImpliesKind()
    ensures AllValidMovesOf(p, color).Some?
    ensures m in AllValidMovesOf(p, color).value <==>
      || SafeOwnMove(p, color, m)
      || (KingsideCastlePossible(p, color) && m == KingsideCastle(color))
      || (QueensideCastlePossible(p, color) && m == QueensideCastle(color))
  {
    KeptMovesIff(p, color, m);
    CastleMovesIff(p, color, m);
    ValidMovesParts(p, color, FilteredMoves(p, PossibleMoves(p, color)).value, CastleMoves(p, color), m);
  }

  lemma CastleMovesIff(p: Position, color: Color, m: Move)
    requires p.ColorImpliesKind()
    ensures m in CastleMoves(p, color) <==>
      || (KingsideCastlePossible(p, color) && m == KingsideCastle(color))
      || (QueensideCastlePossible(p, color) && m == QueensideCastle(color))
  {
    CastleMovesWhenIff(color, KingsideCastlePossible(p, color), QueensideCastlePossible(p, color), m);
  }

  lemma ValidMovesParts(p: Position, color: Color, kept: seq<Move>, castling: seq<Move>, m: Move)
    requires p.ColorImpliesKind() && FilteredMoves(p, PossibleMoves(p, color)) == Some(kept)
    requires castling == CastleMoves(p, color)
    ensures AllValidMovesOf(p, color) == Some(kept + castling)
    ensures m in kept + castling <==> m in kept || m in castling
  {
  }

  /** `m` is a move of a piece of `color` on its square, after which that side's king is not attacked. */
  predicate SafeOwnMove(p: Position, color: Color, m: Move)
    requires p.ColorImpliesKind()
  {
    && MaybePieceAt(p, m.from).Some? && MaybePieceAt(p, m.from).value.color == color
    && m in PieceMoves(p, m.from, MaybePieceAt(p, m.from).value) && KeepMove(p, m) == Some(true)
  }

  /** The filtered part holds exactly the pseudo-legal moves of `color` that leave its king safe. */
  lemma KeptMovesIff(p: Position, color: Color, m: Move)
    requires p.ColorImpliesKind()
    ensures FilteredMoves(p, PossibleMoves(p, color)).Some?
    ensures m in FilteredMoves(p, PossibleMoves(p, color)).value <==> SafeOwnMove(p, color, m)
  {
    FilterTotal(p, color);
    FilteredMovesIff(p, PossibleMoves(p, color), m);
    PossibleMovesIff(p, color, m);
  }

  /** The castling part holds the kingside move iff it is possible and the queenside move iff it is possible. */
  lemma CastleMovesWhenIff(color: Color, kingside: bool, queenside: bool, m: Move)
    ensures m in CastleMovesWhen(color, kingside, queenside) <==>
      (kingside && m == KingsideCastle(color)) || (queenside && m == QueensideCastle(color))
  {
  }

  /** The legal list starts with the filtered moves in square order and ends with the castling moves. */
  lemma ValidMovesLayout(p: Position, color: Color)
    requires p.ColorImpliesKind()
    ensures AllValidMovesOf(p, color).Some?
    ensures var all := AllValidMovesOf(p, color).value;
      var n := |all| - |CastleMoves(p, color)|;
      && 0 <= n
      && SortedByFrom(all[..n])
      && all[n..] == CastleMoves(p, color)
  {
    FilterTotal(p, color);
    var kept := FilteredMoves(p, PossibleMoves(p, color)).value;
    PossibleMovesOrdered(p, color);
    FilteredMovesSorted(p, PossibleMoves(p, color));
    var all := kept + CastleMoves(p, color);
    assert all[..|kept|] == kept;
    assert all[|kept|..] == CastleMoves(p, color);
  }
}
