/**
 * The older application crate's move application, written as methods of the
 * board. The UCI codec and the two en-passant steps are the same as in module
 * Moves and are used from there; what differs is the castling table:
 * it assumes kings on 3 and 59 (the default position puts them on 4 and 60),
 * castles 3 to 1 / 3 to 5 and 59 to 57 / 59 to 61,
 * and the corner-to-right assignment is mirrored (0 is White's kingside rook).
 */
module LegacyMoves {
  import opened Wrappers
  import opened Pieces
  import opened LegacyPieces
  import opened Board
  import opened Moves

  // ---------------------------------------------------------------------------
  // castle_invalidation
  // ---------------------------------------------------------------------------

  /** Rights lost when the piece on `square` leaves it. */
  function InvalidateFrom(p: Position, square: SquareIndex): Position
  {
    match square
    case 0 => p.SetWhiteCastleKingside(false)
    case 7 => p.SetWhiteCastleQueenside(false)
    case 56 => p.SetBlackCastleKingside(false)
    case 63 => p.SetBlackCastleQueenside(false)
    case 3 => p.SetWhiteCastleKingside(false).SetWhiteCastleQueenside(false)
    case 59 => p.SetBlackCastleKingside(false).SetBlackCastleQueenside(false)
    case _ => p
  }

  /** Rights lost when a rook corner is moved onto. */
  function InvalidateTo(p: Position, square: SquareIndex): Position
  {
    match square
    case 0 => p.SetWhiteCastleKingside(false)
    case 7 => p.SetWhiteCastleQueenside(false)
    case 56 => p.SetBlackCastleKingside(false)
    case 63 => p.SetBlackCastleQueenside(false)
    case _ => p
  }

  function AfterCastleInvalidation(m: Move, p: Position): Position
  {
    InvalidateTo(InvalidateFrom(p, m.from), m.to)
  }

  method CastleInvalidation(board: ChessBoard, m: Move)
    modifies board
    ensures board.State() == AfterCastleInvalidation(m, old(board.State()))
  {
    match m.from {
      case 0 => board.SetWhiteCastleKingside(false);
      case 7 => board.SetWhiteCastleQueenside(false);
      case 56 => board.SetBlackCastleKingside(false);
      case 63 => board.SetBlackCastleQueenside(false);
      case 3 =>
        board.SetWhiteCastleKingside(false);
        board.SetWhiteCastleQueenside(false);
      case 59 =>
        board.SetBlackCastleKingside(false);
        board.SetBlackCastleQueenside(false);
      case _ =>
    }
    match m.to {
      case 0 => board.SetWhiteCastleKingside(false);
      case 7 => board.SetWhiteCastleQueenside(false);
      case 56 => board.SetBlackCastleKingside(false);
      case 63 => board.SetBlackCastleQueenside(false);
      case _ =>
    }
  }

  lemma InvalidateFromRights(p: Position, square: SquareIndex)
    ensures InvalidateFrom(p, square).Fields() == p.Fields().(
      whiteKingside := p.CanWhiteCastleKingside() && square != 0 && square != 3,
      whiteQueenside := p.CanWhiteCastleQueenside() && square != 7 && square != 3,
      blackKingside := p.CanBlackCastleKingside() && square != 56 && square != 59,
      blackQueenside := p.CanBlackCastleQueenside() && square != 63 && square != 59)
    ensures SameMasks(p, InvalidateFrom(p, square))
  {
    match square
    case 0 => SetWhiteCastleKingsideSpec(p, false);
    case 7 => SetWhiteCastleQueensideSpec(p, false);
    case 56 => SetBlackCastleKingsideSpec(p, false);
    case 63 => SetBlackCastleQueensideSpec(p, false);
    case 3 =>
      SetWhiteCastleKingsideSpec(p, false);
      SetWhiteCastleQueensideSpec(p.SetWhiteCastleKingside(false), false);
    case 59 =>
      SetBlackCastleKingsideSpec(p, false);
      SetBlackCastleQueensideSpec(p.SetBlackCastleKingside(false), false);
    case _ =>
  }

  lemma InvalidateToRights(p: Position, square: SquareIndex)
    ensures InvalidateTo(p, square).Fields() == p.Fields().(
      whiteKingside := p.CanWhiteCastleKingside() && square != 0,
      whiteQueenside := p.CanWhiteCastleQueenside() && square != 7,
      blackKingside := p.CanBlackCastleKingside() && square != 56,
      blackQueenside := p.CanBlackCastleQueenside() && square != 63)
    ensures SameMasks(p, InvalidateTo(p, square))
  {
    match square
    case 0 => SetWhiteCastleKingsideSpec(p, false);
    case 7 => SetWhiteCastleQueensideSpec(p, false);
    case 56 => SetBlackCastleKingsideSpec(p, false);
    case 63 => SetBlackCastleQueensideSpec(p, false);
    case _ =>
  }

  /**
   * `castle_invalidation` only clears rights: leaving 0/7/56/63 clears
   * WK/WQ/BK/BQ, leaving 3 both White rights, leaving 59 both Black rights,
   * and landing on a corner clears that corner's right. Nothing else changes.
   */
  lemma CastleInvalidationRights(m: Move, p: Position)
    ensures AfterCastleInvalidation(m, p).Fields() == p.Fields().(
      whiteKingside := p.CanWhiteCastleKingside() && m.from != 0 && m.from != 3 && m.to != 0,
      whiteQueenside := p.CanWhiteCastleQueenside() && m.from != 7 && m.from != 3 && m.to != 7,
      blackKingside := p.CanBlackCastleKingside() && m.from != 56 && m.from != 59 && m.to != 56,
      blackQueenside := p.CanBlackCastleQueenside() && m.from != 63 && m.from != 59 && m.to != 63)
    ensures SameMasks(p, AfterCastleInvalidation(m, p))
  {
    InvalidateFromRights(p, m.from);
    InvalidateToRights(InvalidateFrom(p, m.from), m.to);
  }

  // ---------------------------------------------------------------------------
  // move_rook_if_castle
  // ---------------------------------------------------------------------------

  function AfterMoveRookIfCastle(m: Move, p: Position, movingPiece: Piece): Position
  {
    if movingPiece.kind != King then p
    else if m.from == 3 then
      if m.to == 1 then p.SetAt(2, Occupied(WhiteRookPiece())).SetAt(0, Empty)
      else if m.to == 5 then p.SetAt(4, Occupied(WhiteRookPiece())).SetAt(7, Empty)
      else p
    else if m.from == 59 then
      if m.to == 57 then p.SetAt(58, Occupied(BlackRookPiece())).SetAt(56, Empty)
      else if m.to == 61 then p.SetAt(60, Occupied(BlackRookPiece())).SetAt(63, Empty)
      else p
    else p
  }

  method MoveRookIfCastle(board: ChessBoard, m: Move, movingPiece: Piece)
    modifies board
    ensures board.State() == AfterMoveRookIfCastle(m, old(board.State()), movingPiece)
  {
    if movingPiece.kind != King {
      return;
    }
    if m.from == 3 {
      if m.to == 1 {
        board.SetAt(2, Occupied(WhiteRookPiece()));
        board.SetAt(0, Empty);
      } else if m.to == 5 {
        board.SetAt(4, Occupied(WhiteRookPiece()));
        board.SetAt(7, Empty);
      }
    } else if m.from == 59 {
      if m.to == 57 {
        board.SetAt(58, Occupied(BlackRookPiece()));
        board.SetAt(56, Empty);
      } else if m.to == 61 {
        board.SetAt(60, Occupied(BlackRookPiece()));
        board.SetAt(63, Empty);
      }
    }
  }

  /** For a king's castling move: the rook's square before, its square after, and the rook. */
  function CastlingRook(m: Move, movingPiece: Piece): Option<(int, int, Piece)>
  {
    if movingPiece.kind != King then None
    else if m.from == 3 && m.to == 1 then Some((0, 2, WhiteRook))
    else if m.from == 3 && m.to == 5 then Some((7, 4, WhiteRook))
    else if m.from == 59 && m.to == 57 then Some((56, 58, BlackRook))
    else if m.from == 59 && m.to == 61 then Some((63, 60, BlackRook))
    else None
  }

  /** The two squares a castling rook moves between, if any. */
  function RookSquares(m: Move, movingPiece: Piece): set<int>
  {
    match CastlingRook(m, movingPiece)
    case Some((rookFrom, rookTo, _)) => {rookFrom, rookTo}
    case None => {}
  }

  /**
   * A king's castling move relocates its rook: 3 to 1 puts a white rook on 2
   * and empties 0, 3 to 5 puts it on 4 and empties 7, 59 to 57 puts a black
   * rook on 58 and empties 56, 59 to 61 puts it on 60 and empties 63. Any
   * other move changes nothing.
   */
  lemma MoveRookIfCastleSpec(m: Move, p: Position, movingPiece: Piece)
    requires p.ColorImpliesKind()
    ensures CastlingRook(m, movingPiece).None? ==> AfterMoveRookIfCastle(m, p, movingPiece) == p
    ensures CastlingRook(m, movingPiece).Some? ==>
      RookRelocated(p, AfterMoveRookIfCastle(m, p, movingPiece), CastlingRook(m, movingPiece).value.1,
        CastlingRook(m, movingPiece).value.0, CastlingRook(m, movingPiece).value.2)
    ensures AfterMoveRookIfCastle(m, p, movingPiece).ColorImpliesKind()
    ensures SquaresKept(p, AfterMoveRookIfCastle(m, p, movingPiece), RookSquares(m, movingPiece))
    ensures AfterMoveRookIfCastle(m, p, movingPiece).status == p.status
    ensures p.Valid() ==> AfterMoveRookIfCastle(m, p, movingPiece).Valid()
  {
    match CastlingRook(m, movingPiece)
    case Some((rookFrom, rookTo, rook)) => RelocateRook(p, rookTo, rookFrom, rook);
    case None =>
  }

  // ---------------------------------------------------------------------------
  // move_piece
  // ---------------------------------------------------------------------------

  /** The board after castle invalidation, rook relocation and the en-passant capture. */
  function Prepared(m: Move, p: Position, movingPiece: Piece): Result<Position>
    requires p.ColorImpliesKind()
  {
    m.AfterRemovePieceAfterEnPassant(AfterMoveRookIfCastle(m, AfterCastleInvalidation(m, p), movingPiece), movingPiece)
  }

  /**
   * The whole move. Errors: an empty source square (the source's panic), a
   * square from 64 on (the shift in `at`/`set_at` overflows), and the two
   * arithmetic overflows of the en-passant steps.
   */
  function AfterMovePiece(m: Move, p: Position): Result<Position>
    requires p.ColorImpliesKind()
  {
    if m.from >= 64 then Err("shift overflow")
    else
      match p.At(m.from)
      case Empty => Err("Invalid move: Cannot move from empty square")
      case Occupied(movingPiece) => AfterMovingPiece(m, p, movingPiece)
  }

  /** The steps of `move_piece` once the moving piece has been read off `from`. */
  function AfterMovingPiece(m: Move, p: Position, movingPiece: Piece): Result<Position>
    requires p.ColorImpliesKind() && m.from < 64
  {
    match Prepared(m, p, movingPiece)
    case Err(e) => Err(e)
    case Ok(p3) =>
      match m.AfterUpdateEnPassantTargetSquare(p3, movingPiece)
      case Err(e) => Err(e)
      case Ok(p4) =>
        var p5 := p4.SetAt(m.from, Empty);
        if m.to >= 64 then Err("shift overflow")
        else Ok(p5.SetAt(m.to, Occupied(m.PromotedPiece(movingPiece))).NextTurn())
  }

  method MovePiece(board: ChessBoard, m: Move) returns (ok: bool)
    requires board.State().ColorImpliesKind()
    modifies board
    ensures ok <==> AfterMovePiece(m, old(board.State())).Ok?
    ensures ok ==> board.State() == AfterMovePiece(m, old(board.State())).value
  {
    if m.from >= 64 {
      return false;
    }
    var movingPiece: Piece;
    match board.State().At(m.from) {
      case Empty => return false;
      case Occupied(piece) => movingPiece := piece;
    }
    CastleInvalidation(board, m);
    MoveRookIfCastle(board, m, movingPiece);
    ok := m.RemovePieceAfterEnPassant(board, movingPiece);
    if !ok {
      return;
    }
    ok := m.UpdateEnPassantTargetSquare(board, movingPiece);
    if !ok {
      return;
    }
    var promotedPiece := m.PromotedPiece(movingPiece);
    board.SetAt(m.from, Empty);
    if m.to >= 64 {
      return false;
    }
    board.SetAt(m.to, Occupied(promotedPiece));
    board.NextTurn();
  }

  /** `move_piece_uci`: parse, then move; a text the parser rejects is an error. */
  method MovePieceUci(board: ChessBoard, uci: string) returns (ok: bool)
    requires board.State().ColorImpliesKind()
    modifies board
    ensures ok <==> FromUciString(uci).Ok? && AfterMovePiece(FromUciString(uci).value, old(board.State())).Ok?
    ensures ok ==> board.State() == AfterMovePiece(FromUciString(uci).value, old(board.State())).value
  {
    match FromUciString(uci) {
      case Err(_) => return false;
      case Ok(m) => ok := MovePiece(board, m);
    }
  }

  // ---------------------------------------------------------------------------
  // What the whole move does.
  // ---------------------------------------------------------------------------

  /** The squares a move may change: source, target, the castling rook's two squares, the pawn taken en passant. */
  function TouchedSquares(m: Move, p: Position, movingPiece: Piece): set<int>
  {
    {m.from as int, m.to as int} + RookSquares(m, movingPiece) + m.CaptureSquares(p, movingPiece)
  }

  /** Castle invalidation and rook relocation keep the board coherent and leave the en-passant target alone. */
  lemma CastlingStepsKeepStatus(m: Move, p: Position, movingPiece: Piece)
    requires p.ColorImpliesKind()
    ensures AfterCastleInvalidation(m, p).ColorImpliesKind()
    ensures AfterMoveRookIfCastle(m, AfterCastleInvalidation(m, p), movingPiece).ColorImpliesKind()
    ensures AfterMoveRookIfCastle(m, AfterCastleInvalidation(m, p), movingPiece).status == AfterCastleInvalidation(m, p).status
    ensures AfterMoveRookIfCastle(m, AfterCastleInvalidation(m, p), movingPiece).EnPassantTargetSquare() == p.EnPassantTargetSquare()
  {
    var p1 := AfterCastleInvalidation(m, p);
    CastleInvalidationRights(m, p);
    SameMasksKeepSquares(p, p1);
    MoveRookIfCastleSpec(m, p1, movingPiece);
  }

  /**
   * Once the piece is read off `from`, the move succeeds exactly when `to`
   * is on the board and an en-passant capture does not take a pawn off the
   * board.
   */
  lemma MovingPieceSucceeds(m: Move, p: Position, movingPiece: Piece)
    requires p.ColorImpliesKind() && m.from < 64
    ensures AfterMovingPiece(m, p, movingPiece).Ok? <==>
      m.to < 64 && !(m.IsEnPassantCapture(p, movingPiece) && !(0 <= m.CapturedPawnSquare(movingPiece.color) < 64))
  {
    var p2 := AfterMoveRookIfCastle(m, AfterCastleInvalidation(m, p), movingPiece);
    CastlingStepsKeepStatus(m, p, movingPiece);
    m.EnPassantCaptureSpec(p2, movingPiece);
    var r3 := m.AfterRemovePieceAfterEnPassant(p2, movingPiece);
    if r3.Ok? && m.to < 64 {
      m.UpdateEnPassantSpec(r3.value, movingPiece);
    }
  }

  /**
   * `move_piece` succeeds exactly when both squares are on the board, the
   * source is occupied, and an en-passant capture does not take a pawn off
   * the board.
   */
  lemma MovePieceSucceeds(m: Move, p: Position)
    requires p.ColorImpliesKind()
    ensures AfterMovePiece(m, p).Ok? <==>
      && m.from < 64 && m.to < 64 && m.from in p.ColorMask()
      && !(m.IsEnPassantCapture(p, p.At(m.from).piece) && !(0 <= m.CapturedPawnSquare(p.At(m.from).piece.color) < 64))
  {
    if m.from < 64 && m.from in p.ColorMask() {
      MovingPieceSucceeds(m, p, p.At(m.from).piece);
    }
  }

  /** Castle invalidation aside, the preparation steps leave the status word alone. */
  lemma PreparedKeepsStatus(m: Move, p: Position, movingPiece: Piece)
    requires p.ColorImpliesKind() && Prepared(m, p, movingPiece).Ok?
    ensures Prepared(m, p, movingPiece).value.status == AfterCastleInvalidation(m, p).status
  {
    CastlingStepsKeepStatus(m, p, movingPiece);
    m.EnPassantCaptureKeepsStatus(AfterMoveRookIfCastle(m, AfterCastleInvalidation(m, p), movingPiece), movingPiece);
  }

  /** The move flips the side and sets the en-passant target; the castling rights are those after invalidation. */
  lemma MovingPieceFields(m: Move, p: Position, movingPiece: Piece)
    requires p.ColorImpliesKind() && m.from < 64 && AfterMovingPiece(m, p, movingPiece).Ok?
    ensures m.to < 64
    ensures var f := AfterCastleInvalidation(m, p).Fields();
      AfterMovingPiece(m, p, movingPiece).value.Fields() ==
        f.(turn := Not(f.turn), enPassant := if m.IsDoublePawnMove(movingPiece) then Some((m.from + m.to) / 2) else None)
  {
    var p1 := AfterCastleInvalidation(m, p);
    var p3 := Prepared(m, p, movingPiece).value;
    var p4 := m.AfterUpdateEnPassantTargetSquare(p3, movingPiece).value;
    var q0 := p4.SetAt(m.from, Empty).SetAt(m.to, Occupied(m.PromotedPiece(movingPiece)));
    assert AfterMovingPiece(m, p, movingPiece).value == q0.NextTurn();
    PreparedKeepsStatus(m, p, movingPiece);
    m.UpdateEnPassantSpec(p3, movingPiece);
    assert q0.status == p4.status;
    Move.ComposeStatus(p1.Fields(), p1, p3, p4, q0, if m.IsDoublePawnMove(movingPiece) then Some((m.from + m.to) / 2) else None);
  }

  /** The status word after the move, with this module's castling table. */
  lemma MovingPieceStatus(m: Move, p: Position, movingPiece: Piece)
    requires p.ColorImpliesKind() && m.from < 64 && AfterMovingPiece(m, p, movingPiece).Ok?
    ensures m.to < 64
    ensures AfterMovingPiece(m, p, movingPiece).value.Fields() == StatusFields(
      p.CanWhiteCastleKingside() && m.from != 0 && m.from != 3 && m.to != 0,
      p.CanWhiteCastleQueenside() && m.from != 7 && m.from != 3 && m.to != 7,
      p.CanBlackCastleKingside() && m.from != 56 && m.from != 59 && m.to != 56,
      p.CanBlackCastleQueenside() && m.from != 63 && m.from != 59 && m.to != 63,
      Not(p.CurrentTurn()),
      if m.IsDoublePawnMove(movingPiece) then Some((m.from + m.to) / 2) else None)
  {
    MovingPieceFields(m, p, movingPiece);
    CastleInvalidationRights(m, p);
  }

  /** The status word after `move_piece`; see `MovingPieceStatus`. */
  lemma MovePieceStatus(m: Move, p: Position)
    requires p.ColorImpliesKind() && AfterMovePiece(m, p).Ok?
    ensures m.from < 64 && m.to < 64 && m.from in p.ColorMask()
    ensures AfterMovePiece(m, p).value.Fields() == StatusFields(
      p.CanWhiteCastleKingside() && m.from != 0 && m.from != 3 && m.to != 0,
      p.CanWhiteCastleQueenside() && m.from != 7 && m.from != 3 && m.to != 7,
      p.CanBlackCastleKingside() && m.from != 56 && m.from != 59 && m.to != 56,
      p.CanBlackCastleQueenside() && m.from != 63 && m.from != 59 && m.to != 63,
      Not(p.CurrentTurn()),
      if m.IsDoublePawnMove(p.At(m.from).piece) then Some((m.from + m.to) / 2) else None)
  {
    MovingPieceStatus(m, p, p.At(m.from).piece);
  }

  /**
   * The steps before the landing keep the board coherent and change only
   * the castling rook's squares and the square of a pawn taken en passant.
   */
  lemma PreparationKeepsSquares(m: Move, p: Position, movingPiece: Piece)
    requires p.ColorImpliesKind() && Prepared(m, p, movingPiece).Ok?
    ensures Prepared(m, p, movingPiece).value.ColorImpliesKind()
    ensures SquaresKept(p, Prepared(m, p, movingPiece).value, RookSquares(m, movingPiece) + m.CaptureSquares(p, movingPiece))
  {
    var p1 := AfterCastleInvalidation(m, p);
    var p2 := AfterMoveRookIfCastle(m, p1, movingPiece);
    CastleInvalidationRights(m, p);
    SameMasksKept(p, p1);
    MoveRookIfCastleSpec(m, p1, movingPiece);
    m.EnPassantCaptureSpec(p2, movingPiece);
    assert m.CaptureSquares(p2, movingPiece) == m.CaptureSquares(p, movingPiece) by {
      CastlingStepsKeepStatus(m, p, movingPiece);
    }
    SquaresKeptTrans(p, p1, p2, {}, RookSquares(m, movingPiece), RookSquares(m, movingPiece));
    SquaresKeptTrans(p, p2, Prepared(m, p, movingPiece).value, RookSquares(m, movingPiece), m.CaptureSquares(p, movingPiece),
      RookSquares(m, movingPiece) + m.CaptureSquares(p, movingPiece));
  }

  /** Before the landing, a castling rook already stands beside the king and its corner is empty. */
  lemma PreparationMovesRook(m: Move, p: Position, movingPiece: Piece)
    requires p.ColorImpliesKind() && CastlingRook(m, movingPiece).Some?
    ensures Prepared(m, p, movingPiece).Ok?
    ensures Prepared(m, p, movingPiece).value.ColorImpliesKind()
    ensures Prepared(m, p, movingPiece).value.At(CastlingRook(m, movingPiece).value.1) == Occupied(CastlingRook(m, movingPiece).value.2)
    ensures Prepared(m, p, movingPiece).value.At(CastlingRook(m, movingPiece).value.0) == Empty
  {
    var p1 := AfterCastleInvalidation(m, p);
    var p2 := AfterMoveRookIfCastle(m, p1, movingPiece);
    CastleInvalidationRights(m, p);
    SameMasksKeepSquares(p, p1);
    MoveRookIfCastleSpec(m, p1, movingPiece);
    m.EnPassantCaptureSpec(p2, movingPiece);
  }

  /** Before the landing, the pawn taken en passant is gone. */
  lemma PreparationCapturesEnPassant(m: Move, p: Position, movingPiece: Piece)
    requires p.ColorImpliesKind() && Prepared(m, p, movingPiece).Ok? && m.IsEnPassantCapture(p, movingPiece)
    ensures 0 <= m.CapturedPawnSquare(movingPiece.color) < 64
    ensures Prepared(m, p, movingPiece).value.ColorImpliesKind()
    ensures Prepared(m, p, movingPiece).value.At(m.CapturedPawnSquare(movingPiece.color)) == Empty
  {
    var p2 := AfterMoveRookIfCastle(m, AfterCastleInvalidation(m, p), movingPiece);
    CastlingStepsKeepStatus(m, p, movingPiece);
    m.EnPassantCaptureSpec(p2, movingPiece);
  }

  /** After a successful move the (possibly promoted) piece stands on `to` and `from` is empty. */
  lemma MovingPieceLands(m: Move, p: Position, movingPiece: Piece)
    requires p.ColorImpliesKind() && m.from < 64 && AfterMovingPiece(m, p, movingPiece).Ok?
    ensures AfterMovingPiece(m, p, movingPiece).value.ColorImpliesKind()
    ensures AfterMovingPiece(m, p, movingPiece).value.At(m.to) == Occupied(m.PromotedPiece(movingPiece))
    ensures m.from != m.to ==> AfterMovingPiece(m, p, movingPiece).value.At(m.from) == Empty
    ensures Prepared(m, p, movingPiece).Ok? && Prepared(m, p, movingPiece).value.ColorImpliesKind()
    ensures SquaresKept(Prepared(m, p, movingPiece).value, AfterMovingPiece(m, p, movingPiece).value, {m.from as int, m.to as int})
  {
    PreparationKeepsSquares(m, p, movingPiece);
    m.LandingSquares(Prepared(m, p, movingPiece).value, movingPiece);
  }

  /** The landing leaves a square other than `from` and `to` as the preparation left it. */
  lemma MovingPieceKeepsSquare(m: Move, p: Position, movingPiece: Piece, j: int)
    requires p.ColorImpliesKind() && m.from < 64 && AfterMovingPiece(m, p, movingPiece).Ok?
    requires 0 <= j < 64 && j != m.from as int && j != m.to as int
    ensures Prepared(m, p, movingPiece).Ok? && Prepared(m, p, movingPiece).value.ColorImpliesKind()
    ensures AfterMovingPiece(m, p, movingPiece).value.ColorImpliesKind()
    ensures AfterMovingPiece(m, p, movingPiece).value.At(j) == Prepared(m, p, movingPiece).value.At(j)
  {
    MovingPieceLands(m, p, movingPiece);
  }

  /** A successful move changes no square outside `TouchedSquares`. */
  lemma MovingPieceKeepsSquares(m: Move, p: Position, movingPiece: Piece)
    requires p.ColorImpliesKind() && m.from < 64 && AfterMovingPiece(m, p, movingPiece).Ok?
    ensures AfterMovingPiece(m, p, movingPiece).value.ColorImpliesKind()
    ensures SquaresKept(p, AfterMovingPiece(m, p, movingPiece).value, TouchedSquares(m, p, movingPiece))
  {
    PreparationKeepsSquares(m, p, movingPiece);
    MovingPieceLands(m, p, movingPiece);
    SquaresKeptTrans(p, Prepared(m, p, movingPiece).value, AfterMovingPiece(m, p, movingPiece).value,
      RookSquares(m, movingPiece) + m.CaptureSquares(p, movingPiece), {m.from as int, m.to as int},
      TouchedSquares(m, p, movingPiece));
  }

  /** A successful castling move leaves the rook beside the king and the rook's corner empty. */
  lemma MovingPieceMovesRook(m: Move, p: Position, movingPiece: Piece)
    requires p.ColorImpliesKind() && m.from < 64 && AfterMovingPiece(m, p, movingPiece).Ok?
    requires CastlingRook(m, movingPiece).Some?
    ensures AfterMovingPiece(m, p, movingPiece).value.ColorImpliesKind()
    ensures AfterMovingPiece(m, p, movingPiece).value.At(CastlingRook(m, movingPiece).value.1) == Occupied(CastlingRook(m, movingPiece).value.2)
    ensures AfterMovingPiece(m, p, movingPiece).value.At(CastlingRook(m, movingPiece).value.0) == Empty
  {
    PreparationMovesRook(m, p, movingPiece);
    MovingPieceKeepsSquare(m, p, movingPiece, CastlingRook(m, movingPiece).value.1);
    MovingPieceKeepsSquare(m, p, movingPiece, CastlingRook(m, movingPiece).value.0);
  }

  /** A successful en-passant capture leaves the taken pawn's square empty. */
  lemma MovingPieceCapturesEnPassant(m: Move, p: Position, movingPiece: Piece)
    requires p.ColorImpliesKind() && m.from < 64 && AfterMovingPiece(m, p, movingPiece).Ok?
    requires m.IsEnPassantCapture(p, movingPiece)
    ensures 0 <= m.CapturedPawnSquare(movingPiece.color) < 64
    ensures AfterMovingPiece(m, p, movingPiece).value.ColorImpliesKind()
    ensures AfterMovingPiece(m, p, movingPiece).value.At(m.CapturedPawnSquare(movingPiece.color)) == Empty
  {
    PreparationCapturesEnPassant(m, p, movingPiece);
    MovingPieceLands(m, p, movingPiece);
  }

  /**
   * After `move_piece`: the (possibly promoted) piece stands on `to`, `from`
   * is empty, a castling rook stands beside the king with its corner
   * emptied, a pawn taken en passant is gone, and every square the move does
   * not touch is as before.
   */
  lemma MovePieceSquares(m: Move, p: Position)
    requires p.ColorImpliesKind() && AfterMovePiece(m, p).Ok?
    ensures m.from < 64 && m.to < 64 && m.from in p.ColorMask()
    ensures AfterMovePiece(m, p).value.ColorImpliesKind()
    ensures AfterMovePiece(m, p).value.At(m.to) == Occupied(m.PromotedPiece(p.At(m.from).piece))
    ensures m.from != m.to ==> AfterMovePiece(m, p).value.At(m.from) == Empty
    ensures SquaresKept(p, AfterMovePiece(m, p).value, TouchedSquares(m, p, p.At(m.from).piece))
    ensures CastlingRook(m, p.At(m.from).piece).Some? ==>
      && AfterMovePiece(m, p).value.At(CastlingRook(m, p.At(m.from).piece).value.1) == Occupied(CastlingRook(m, p.At(m.from).piece).value.2)
      && AfterMovePiece(m, p).value.At(CastlingRook(m, p.At(m.from).piece).value.0) == Empty
    ensures m.IsEnPassantCapture(p, p.At(m.from).piece) ==>
      && 0 <= m.CapturedPawnSquare(p.At(m.from).piece.color) < 64
      && AfterMovePiece(m, p).value.At(m.CapturedPawnSquare(p.At(m.from).piece.color)) == Empty
  {
    var movingPiece := p.At(m.from).piece;
    MovingPieceSucceeds(m, p, movingPiece);
    MovingPieceLands(m, p, movingPiece);
    MovingPieceKeepsSquares(m, p, movingPiece);
    if CastlingRook(m, movingPiece).Some? {
      MovingPieceMovesRook(m, p, movingPiece);
    }
    if m.IsEnPassantCapture(p, movingPiece) {
      MovingPieceCapturesEnPassant(m, p, movingPiece);
    }
  }

  /** A successful move keeps the board invariant. */
  lemma MovingPieceKeepsValid(m: Move, p: Position, movingPiece: Piece)
    requires p.Valid() && m.from < 64 && AfterMovingPiece(m, p, movingPiece).Ok?
    ensures AfterMovingPiece(m, p, movingPiece).value.Valid()
  {
    var p1 := AfterCastleInvalidation(m, p);
    var p2 := AfterMoveRookIfCastle(m, p1, movingPiece);
    var p3 := m.AfterRemovePieceAfterEnPassant(p2, movingPiece).value;
    var p4 := m.AfterUpdateEnPassantTargetSquare(p3, movingPiece).value;
    var p5 := p4.SetAt(m.from, Empty);
    var q0 := p5.SetAt(m.to, Occupied(m.PromotedPiece(movingPiece)));
    assert AfterMovingPiece(m, p, movingPiece).value == q0.NextTurn();
    CastleInvalidationRights(m, p);
    SameMasksKeepSquares(p, p1);
    MoveRookIfCastleSpec(m, p1, movingPiece);
    m.EnPassantCaptureSpec(p2, movingPiece);
    m.UpdateEnPassantSpec(p3, movingPiece);
    SameMasksKeepSquares(p3, p4);
    p4.SetAtValid(m.from, Empty);
    p5.SetAtValid(m.to, Occupied(m.PromotedPiece(movingPiece)));
    SameMasksKeepSquares(q0, q0.NextTurn());
  }

  /** `move_piece` keeps the board invariant. */
  lemma MovePieceKeepsValid(m: Move, p: Position)
    requires p.Valid() && AfterMovePiece(m, p).Ok?
    ensures AfterMovePiece(m, p).value.Valid()
  {
    MovingPieceKeepsValid(m, p, p.At(m.from).piece);
  }

  /** A move keeps every square decodable. */
  lemma MovePieceKeepsCoherent(m: Move, p: Position)
    requires p.ColorImpliesKind() && AfterMovePiece(m, p).Ok?
    ensures AfterMovePiece(m, p).value.ColorImpliesKind()
  {
    MovingPieceLands(m, p, p.At(m.from).piece);
  }
}
