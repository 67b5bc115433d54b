/**
 * A move, its UCI text form, and move application: castling-right
 * invalidation, rook relocation, en-passant capture, the new en-passant
 * target, promotion and the turn flip, in that order.
 *
 * Each step is a method that updates a `ChessBoard` in place and is specified
 * by a function on `Position`; the properties are proved about the functions.
 */
module Moves {
  import opened Wrappers
  import opened Pieces
  import opened Board
  import opened BoardUtils

  // ---------------------------------------------------------------------------
  // The UCI codec: "e2e4", "a7a8q". File a is column 0, rank 1 is row 0.
  // ---------------------------------------------------------------------------

  predicate IsFileChar(c: char) { 'a' <= c <= 'h' }

  predicate IsRankChar(c: char) { '1' <= c <= '8' }

  predicate IsPromotionChar(c: char) { c == 'q' || c == 'r' || c == 'b' || c == 'n' }

  /** The pattern `^[a-h][1-8][a-h][1-8][qrbn]?$`, character by character. */
  predicate IsUciString(s: string)
  {
    && (|s| == 4 || |s| == 5)
    && IsFileChar(s[0]) && IsRankChar(s[1]) && IsFileChar(s[2]) && IsRankChar(s[3])
    && (|s| == 5 ==> IsPromotionChar(s[4]))
  }

  function PromotionKindOf(c: char): (r: Option<PieceKind>)
    ensures r.Some? <==> IsPromotionChar(c)
  {
    match c
    case 'q' => Some(Queen)
    case 'r' => Some(Rook)
    case 'b' => Some(Bishop)
    case 'n' => Some(Knight)
    case _ => None
  }

  /** The letter of a promotion kind; None for Pawn and King, which the source rejects with a panic. */
  function PromotionCharOf(k: PieceKind): (r: Option<char>)
    ensures r.Some? <==> k in PromotableKinds
    ensures r.Some? ==> PromotionKindOf(r.value) == Some(k)
  {
    match k
    case Rook => Some('r')
    case Knight => Some('n')
    case Bishop => Some('b')
    case Queen => Some('q')
    case _ => None
  }

  datatype Move = Move(from: SquareIndex, to: SquareIndex, promotedPieceKind: Option<PieceKind>)
  {
    /** The text form; an error for a promotion to Pawn or King. */
    function ToUciString(): (r: Result<string>)
      ensures r.Ok? <==> promotedPieceKind.None? || promotedPieceKind.value in PromotableKinds
      ensures r.Ok? ==> |r.value| == if promotedPieceKind.None? then 4 else 5
    {
      var squares := [SquareFileChar(from), SquareRankChar(from), SquareFileChar(to), SquareRankChar(to)];
      match promotedPieceKind
      case None => Ok(squares)
      case Some(kind) =>
        match PromotionCharOf(kind)
        case Some(c) => Ok(squares + [c])
        case None => Err("Invalid move, promoted piece cannot be of this kind")
    }

    // -------------------------------------------------------------------------
    // castle_invalidation
    // -------------------------------------------------------------------------

    /** Rights lost when the piece on `square` leaves it: a rook corner or a king square. */
    static function InvalidateFrom(p: Position, square: SquareIndex): Position
    {
      match square
      case 0 => p.SetWhiteCastleQueenside(false)
      case 7 => p.SetWhiteCastleKingside(false)
      case 56 => p.SetBlackCastleQueenside(false)
      case 63 => p.SetBlackCastleKingside(false)
      case 4 => p.SetWhiteCastleKingside(false).SetWhiteCastleQueenside(false)
      case 60 => p.SetBlackCastleKingside(false).SetBlackCastleQueenside(false)
      case _ => p
    }

    /** Rights lost when a rook corner is moved onto (its rook is captured). */
    static function InvalidateTo(p: Position, square: SquareIndex): Position
    {
      match square
      case 0 => p.SetWhiteCastleQueenside(false)
      case 7 => p.SetWhiteCastleKingside(false)
      case 56 => p.SetBlackCastleQueenside(false)
      case 63 => p.SetBlackCastleKingside(false)
      case _ => p
    }

    function AfterCastleInvalidation(p: Position): Position
    {
      InvalidateTo(InvalidateFrom(p, from), to)
    }

    method CastleInvalidation(board: ChessBoard)
      modifies board
      ensures board.State() == AfterCastleInvalidation(old(board.State()))
    {
      match from {
        case 0 => board.SetWhiteCastleQueenside(false);
        case 7 => board.SetWhiteCastleKingside(false);
        case 56 => board.SetBlackCastleQueenside(false);
        case 63 => board.SetBlackCastleKingside(false);
        case 4 =>
          board.SetWhiteCastleKingside(false);
          board.SetWhiteCastleQueenside(false);
        case 60 =>
          board.SetBlackCastleKingside(false);
          board.SetBlackCastleQueenside(false);
        case _ =>
      }
      match to {
        case 0 => board.SetWhiteCastleQueenside(false);
        case 7 => board.SetWhiteCastleKingside(false);
        case 56 => board.SetBlackCastleQueenside(false);
        case 63 => board.SetBlackCastleKingside(false);
        case _ =>
      }
    }

    // -------------------------------------------------------------------------
    // move_rook_when_castling
    // -------------------------------------------------------------------------

    function AfterMoveRookWhenCastling(p: Position, movingPiece: Piece): Position
    {
      if movingPiece.kind != King then p
      else if from == 4 then
        if to == 2 then p.SetAt(3, Occupied(WhiteRook)).SetAt(0, Empty)
        else if to == 6 then p.SetAt(5, Occupied(WhiteRook)).SetAt(7, Empty)
        else p
      else if from == 60 then
        if to == 58 then p.SetAt(59, Occupied(BlackRook)).SetAt(56, Empty)
        else if to == 62 then p.SetAt(61, Occupied(BlackRook)).SetAt(63, Empty)
        else p
      else p
    }

    method MoveRookWhenCastling(board: ChessBoard, movingPiece: Piece)
      modifies board
      ensures board.State() == AfterMoveRookWhenCastling(old(board.State()), movingPiece)
    {
      if movingPiece.kind != King {
        return;
      }
      if from == 4 {
        if to == 2 {
          board.SetAt(3, Occupied(WhiteRook));
          board.SetAt(0, Empty);
        } else if to == 6 {
          board.SetAt(5, Occupied(WhiteRook));
          board.SetAt(7, Empty);
        }
      } else if from == 60 {
        if to == 58 {
          board.SetAt(59, Occupied(BlackRook));
          board.SetAt(56, Empty);
        } else if to == 62 {
          board.SetAt(61, Occupied(BlackRook));
          board.SetAt(63, Empty);
        }
      }
    }

    // -------------------------------------------------------------------------
    // remove_piece_after_en_passant
    // -------------------------------------------------------------------------

    /**
     * A pawn landing on the en-passant target removes the pawn it passed:
     * one rank behind for White, one rank ahead for Black. The source's
     * `en_passant_square - 8` underflows below 8, and a square from 64 on
     * overflows the shift in `set_at`: both are errors here.
     */
    function AfterRemovePieceAfterEnPassant(p: Position, movingPiece: Piece): Result<Position>
    {
      match (movingPiece.kind, p.EnPassantTargetSquare())
      case (Pawn, Some(enPassantSquare)) =>
        if to == enPassantSquare then
          var squareToClear: int := match movingPiece.color
            case White => enPassantSquare as int - 8
            case Black => enPassantSquare as int + 8;
          EmptySquare(p, squareToClear)
        else Ok(p)
      case _ => Ok(p)
    }

    method RemovePieceAfterEnPassant(board: ChessBoard, movingPiece: Piece) returns (ok: bool)
      modifies board
      ensures ok <==> AfterRemovePieceAfterEnPassant(old(board.State()), movingPiece).Ok?
      ensures ok ==> board.State() == AfterRemovePieceAfterEnPassant(old(board.State()), movingPiece).value
    {
      ok := true;
      match (movingPiece.kind, board.State().EnPassantTargetSquare()) {
        case (Pawn, Some(enPassantSquare)) =>
          if to == enPassantSquare {
            var squareToClear: int := match movingPiece.color
              case White => enPassantSquare as int - 8
              case Black => enPassantSquare as int + 8;
            if 0 <= squareToClear < 64 {
              board.SetAt(squareToClear, Empty);
            } else {
              ok := false;
            }
          }
        case _ =>
      }
    }

    // -------------------------------------------------------------------------
    // update_en_passant_target_square
    // -------------------------------------------------------------------------

    predicate IsDoublePawnMove(movingPiece: Piece)
    {
      movingPiece.kind == Pawn && AbsDiff(from, to) > 9
    }

    /**
     * The new en-passant target: the midpoint of a pawn move of more than nine
     * squares, otherwise none. The source adds the two u8 squares, which
     * overflows from 256 on: an error here.
     */
    function AfterUpdateEnPassantTargetSquare(p: Position, movingPiece: Piece): Result<Position>
    {
      if IsDoublePawnMove(movingPiece) then
        if from + to < 256 then Ok(p.SetEnPassantTargetSquare(Some((from + to) / 2)))
        else Err("attempt to add with overflow")
      else Ok(p.SetEnPassantTargetSquare(None))
    }

    method UpdateEnPassantTargetSquare(board: ChessBoard, movingPiece: Piece) returns (ok: bool)
      modifies board
      ensures ok <==> AfterUpdateEnPassantTargetSquare(old(board.State()), movingPiece).Ok?
      ensures ok ==> board.State() == AfterUpdateEnPassantTargetSquare(old(board.State()), movingPiece).value
    {
      ok := true;
      if IsDoublePawnMove(movingPiece) {
        if from + to < 256 {
          board.SetEnPassantTargetSquare(Some((from + to) / 2));
        } else {
          ok := false;
        }
      } else {
        board.SetEnPassantTargetSquare(None);
      }
    }

    // -------------------------------------------------------------------------
    // move_piece
    // -------------------------------------------------------------------------

    /** The piece that lands on `to`: the mover, or the promotion kind in the mover's colour. */
    function PromotedPiece(movingPiece: Piece): (r: Piece)
      ensures r.color == movingPiece.color
      ensures r.kind == if promotedPieceKind.None? then movingPiece.kind else promotedPieceKind.value
    {
      match promotedPieceKind
      case None => movingPiece
      case Some(kind) => Piece(kind, movingPiece.color)
    }

    /**
     * The whole move. Errors: an empty source square (the source's panic), a
     * square from 64 on (the shift in `at`/`set_at` overflows), and the two
     * arithmetic overflows of the en-passant steps.
     */
    function AfterMovePiece(p: Position): Result<Position>
      requires p.ColorImpliesKind()
    {
      if from >= 64 then Err("shift overflow")
      else
        match p.At(from)
        case Empty => Err("Invalid move: Cannot move from empty square")
        case Occupied(movingPiece) => AfterMovingPiece(p, movingPiece)
    }

    /** The steps of `move_piece` once the moving piece has been read off `from`. */
    function AfterMovingPiece(p: Position, movingPiece: Piece): Result<Position>
      requires p.ColorImpliesKind() && from < 64
    {
      match Prepared(p, movingPiece)
      case Err(e) => Err(e)
      case Ok(p3) =>
        match AfterUpdateEnPassantTargetSquare(p3, movingPiece)
        case Err(e) => Err(e)
        case Ok(p4) =>
          var p5 := p4.SetAt(from, Empty);
          if to >= 64 then Err("shift overflow")
          else Ok(p5.SetAt(to, Occupied(PromotedPiece(movingPiece))).NextTurn())
    }

    method MovePiece(board: ChessBoard) returns (ok: bool)
      requires board.State().ColorImpliesKind()
      modifies board
      ensures ok <==> AfterMovePiece(old(board.State())).Ok?
      ensures ok ==> board.State() == AfterMovePiece(old(board.State())).value
    {
      if from >= 64 {
        return false;
      }
      var movingPiece: Piece;
      match board.State().At(from) {
        case Empty => return false;
        case Occupied(piece) => movingPiece := piece;
      }
      CastleInvalidation(board);
      MoveRookWhenCastling(board, movingPiece);
      ok := RemovePieceAfterEnPassant(board, movingPiece);
      if !ok {
        return;
      }
      ok := UpdateEnPassantTargetSquare(board, movingPiece);
      if !ok {
        return;
      }
      var promotedPiece := PromotedPiece(movingPiece);
      board.SetAt(from, Empty);
      if to >= 64 {
        return false;
      }
      board.SetAt(to, Occupied(promotedPiece));
      board.NextTurn();
    }

    // -------------------------------------------------------------------------
    // What each step does.
    // -------------------------------------------------------------------------

    static lemma InvalidateFromRights(p: Position, square: SquareIndex)
      ensures InvalidateFrom(p, square).Fields() == p.Fields().(
        whiteKingside := p.CanWhiteCastleKingside() && square != 7 && square != 4,
        whiteQueenside := p.CanWhiteCastleQueenside() && square != 0 && square != 4,
        blackKingside := p.CanBlackCastleKingside() && square != 63 && square != 60,
        blackQueenside := p.CanBlackCastleQueenside() && square != 56 && square != 60)
      ensures SameMasks(p, InvalidateFrom(p, square))
    {
      match square
      case 0 => SetWhiteCastleQueensideSpec(p, false);
      case 7 => SetWhiteCastleKingsideSpec(p, false);
      case 56 => SetBlackCastleQueensideSpec(p, false);
      case 63 => SetBlackCastleKingsideSpec(p, false);
      case 4 =>
        SetWhiteCastleKingsideSpec(p, false);
        SetWhiteCastleQueensideSpec(p.SetWhiteCastleKingside(false), false);
      case 60 =>
        SetBlackCastleKingsideSpec(p, false);
        SetBlackCastleQueensideSpec(p.SetBlackCastleKingside(false), false);
      case _ =>
    }

    static lemma InvalidateToRights(p: Position, square: SquareIndex)
      ensures InvalidateTo(p, square).Fields() == p.Fields().(
        whiteKingside := p.CanWhiteCastleKingside() && square != 7,
        whiteQueenside := p.CanWhiteCastleQueenside() && square != 0,
        blackKingside := p.CanBlackCastleKingside() && square != 63,
        blackQueenside := p.CanBlackCastleQueenside() && square != 56)
      ensures SameMasks(p, InvalidateTo(p, square))
    {
      match square
      case 0 => SetWhiteCastleQueensideSpec(p, false);
      case 7 => SetWhiteCastleKingsideSpec(p, false);
      case 56 => SetBlackCastleQueensideSpec(p, false);
      case 63 => SetBlackCastleKingsideSpec(p, false);
      case _ =>
    }

    /**
     * `castle_invalidation` only clears rights: leaving 0/7/56/63 clears
     * WQ/WK/BQ/BK, leaving 4 both White rights, leaving 60 both Black rights,
     * and landing on a corner clears that corner's right. The side to move,
     * the en-passant target and the pieces do not change.
     */
    lemma CastleInvalidationRights(p: Position)
      ensures AfterCastleInvalidation(p).Fields() == p.Fields().(
        whiteKingside := p.CanWhiteCastleKingside() && from != 7 && from != 4 && to != 7,
        whiteQueenside := p.CanWhiteCastleQueenside() && from != 0 && from != 4 && to != 0,
        blackKingside := p.CanBlackCastleKingside() && from != 63 && from != 60 && to != 63,
        blackQueenside := p.CanBlackCastleQueenside() && from != 56 && from != 60 && to != 56)
      ensures SameMasks(p, AfterCastleInvalidation(p))
    {
      InvalidateFromRights(p, from);
      InvalidateToRights(InvalidateFrom(p, from), to);
    }

    /**
     * A king's castling move relocates its rook: 4 to 2 puts a white rook on
     * 3 and empties 0, 4 to 6 puts it on 5 and empties 7, 60 to 58 puts a
     * black rook on 59 and empties 56, 60 to 62 puts it on 61 and empties 63.
     * Any other move changes nothing.
     */
    lemma MoveRookWhenCastlingSpec(p: Position, movingPiece: Piece)
      requires p.ColorImpliesKind()
      ensures CastlingRook(movingPiece).None? ==> AfterMoveRookWhenCastling(p, movingPiece) == p
      ensures CastlingRook(movingPiece).Some? ==>
        RookRelocated(p, AfterMoveRookWhenCastling(p, movingPiece), CastlingRook(movingPiece).value.1,
          CastlingRook(movingPiece).value.0, CastlingRook(movingPiece).value.2)
      ensures AfterMoveRookWhenCastling(p, movingPiece).ColorImpliesKind()
      ensures SquaresKept(p, AfterMoveRookWhenCastling(p, movingPiece), RookSquares(movingPiece))
      ensures AfterMoveRookWhenCastling(p, movingPiece).status == p.status
      ensures p.Valid() ==> AfterMoveRookWhenCastling(p, movingPiece).Valid()
    {
      match CastlingRook(movingPiece)
      case Some((rookFrom, rookTo, rook)) => RelocateRook(p, rookTo, rookFrom, rook);
      case None =>
    }

    /** For a king's castling move: the rook's square before, its square after, and the rook. */
    function CastlingRook(movingPiece: Piece): Option<(int, int, Piece)>
    {
      if movingPiece.kind != King then None
      else if from == 4 && to == 2 then Some((0, 3, WhiteRook))
      else if from == 4 && to == 6 then Some((7, 5, WhiteRook))
      else if from == 60 && to == 58 then Some((56, 59, BlackRook))
      else if from == 60 && to == 62 then Some((63, 61, BlackRook))
      else None
    }

    /** The two squares a castling rook moves between, if any. */
    function RookSquares(movingPiece: Piece): set<int>
    {
      match CastlingRook(movingPiece)
      case Some((rookFrom, rookTo, _)) => {rookFrom, rookTo}
      case None => {}
    }

    /**
     * A pawn moving onto the en-passant target removes the pawn on the target
     * minus 8 (White) or plus 8 (Black); on the board that square becomes
     * empty and nothing else changes. Any other move changes nothing.
     */
    lemma EnPassantCaptureSpec(p: Position, movingPiece: Piece)
      requires p.ColorImpliesKind()
      ensures !IsEnPassantCapture(p, movingPiece) ==> AfterRemovePieceAfterEnPassant(p, movingPiece) == Ok(p)
      ensures IsEnPassantCapture(p, movingPiece) ==>
        (AfterRemovePieceAfterEnPassant(p, movingPiece).Ok? <==> 0 <= CapturedPawnSquare(movingPiece.color) < 64)
      ensures IsEnPassantCapture(p, movingPiece) && 0 <= CapturedPawnSquare(movingPiece.color) < 64 ==>
        SquareCleared(p, AfterRemovePieceAfterEnPassant(p, movingPiece).value, CapturedPawnSquare(movingPiece.color))
      ensures AfterRemovePieceAfterEnPassant(p, movingPiece).Ok? ==>
        && AfterRemovePieceAfterEnPassant(p, movingPiece).value.ColorImpliesKind()
        && AfterRemovePieceAfterEnPassant(p, movingPiece).value.status == p.status
        && SquaresKept(p, AfterRemovePieceAfterEnPassant(p, movingPiece).value, CaptureSquares(p, movingPiece))
        && (p.Valid() ==> AfterRemovePieceAfterEnPassant(p, movingPiece).value.Valid())
    {
      var square := CapturedPawnSquare(movingPiece.color);
      if IsEnPassantCapture(p, movingPiece) && 0 <= square < 64 {
        ClearSquare(p, square);
      }
    }

    /** Whether the move is a pawn's capture onto the en-passant target. */
    predicate IsEnPassantCapture(p: Position, movingPiece: Piece)
    {
      movingPiece.kind == Pawn && p.EnPassantTargetSquare() == Some(to)
    }

    /** The square of the pawn taken en passant, if any. */
    function CaptureSquares(p: Position, movingPiece: Piece): set<int>
    {
      if IsEnPassantCapture(p, movingPiece) then {CapturedPawnSquare(movingPiece.color)} else {}
    }

    /** The square of the pawn an en-passant capture onto `to` removes. */
    function CapturedPawnSquare(color: Color): int
    {
      match color
      case White => to as int - 8
      case Black => to as int + 8
    }

    /**
     * With both squares on the board, the en-passant target becomes the
     * midpoint of a pawn move of more than nine squares and none otherwise;
     * no other status field and no piece changes.
     */
    lemma UpdateEnPassantSpec(p: Position, movingPiece: Piece)
      requires from < 64 && to < 64
      ensures AfterUpdateEnPassantTargetSquare(p, movingPiece).Ok?
      ensures AfterUpdateEnPassantTargetSquare(p, movingPiece).value.Fields() ==
        p.Fields().(enPassant := if IsDoublePawnMove(movingPiece) then Some((from + to) / 2) else None)
      ensures SameMasks(p, AfterUpdateEnPassantTargetSquare(p, movingPiece).value)
    {
      if IsDoublePawnMove(movingPiece) {
        SetEnPassantReads(p, Some((from + to) / 2));
      } else {
        SetEnPassantReads(p, None);
      }
    }

    // -------------------------------------------------------------------------
    // What the whole move does.
    // -------------------------------------------------------------------------

    /** The squares a move may change: source, target, the castling rook's two squares, the pawn taken en passant. */
    function TouchedSquares(p: Position, movingPiece: Piece): set<int>
    {
      {from as int, to as int} + RookSquares(movingPiece) + CaptureSquares(p, movingPiece)
    }

    /** Castle invalidation and rook relocation keep the board coherent and leave the en-passant target alone. */
    lemma CastlingStepsKeepStatus(p: Position, movingPiece: Piece)
      requires p.ColorImpliesKind()
      ensures AfterCastleInvalidation(p).ColorImpliesKind()
      ensures AfterMoveRookWhenCastling(AfterCastleInvalidation(p), movingPiece).ColorImpliesKind()
      ensures AfterMoveRookWhenCastling(AfterCastleInvalidation(p), movingPiece).status == AfterCastleInvalidation(p).status
      ensures AfterMoveRookWhenCastling(AfterCastleInvalidation(p), movingPiece).EnPassantTargetSquare() == p.EnPassantTargetSquare()
    {
      var p1 := AfterCastleInvalidation(p);
      CastleInvalidationRights(p);
      SameMasksKeepSquares(p, p1);
      MoveRookWhenCastlingSpec(p1, movingPiece);
    }

    lemma EnPassantCaptureKeepsStatus(p: Position, movingPiece: Piece)
      requires p.ColorImpliesKind() && AfterRemovePieceAfterEnPassant(p, movingPiece).Ok?
      ensures AfterRemovePieceAfterEnPassant(p, movingPiece).value.status == p.status
      ensures AfterRemovePieceAfterEnPassant(p, movingPiece).value.ColorImpliesKind()
    {
      EnPassantCaptureSpec(p, movingPiece);
    }

    /**
     * Once the piece is read off `from`, the move succeeds exactly when `to`
     * is on the board and an en-passant capture does not take a pawn off the
     * board.
     */
    lemma MovingPieceSucceeds(p: Position, movingPiece: Piece)
      requires p.ColorImpliesKind() && from < 64
      ensures AfterMovingPiece(p, movingPiece).Ok? <==>
        to < 64 && !(IsEnPassantCapture(p, movingPiece) && !(0 <= CapturedPawnSquare(movingPiece.color) < 64))
    {
      var p2 := AfterMoveRookWhenCastling(AfterCastleInvalidation(p), movingPiece);
      CastlingStepsKeepStatus(p, movingPiece);
      EnPassantCaptureSpec(p2, movingPiece);
      var r3 := AfterRemovePieceAfterEnPassant(p2, movingPiece);
      if r3.Ok? && to < 64 {
        UpdateEnPassantSpec(r3.value, movingPiece);
      }
    }

    /**
     * `move_piece` succeeds exactly when both squares are on the board, the
     * source is occupied, and an en-passant capture does not take a pawn off
     * the board.
     */
    lemma MovePieceSucceeds(p: Position)
      requires p.ColorImpliesKind()
      ensures AfterMovePiece(p).Ok? <==>
        && from < 64 && to < 64 && from in p.ColorMask()
        && !(IsEnPassantCapture(p, p.At(from).piece) && !(0 <= CapturedPawnSquare(p.At(from).piece.color) < 64))
    {
      if from < 64 && from in p.ColorMask() {
        MovingPieceSucceeds(p, p.At(from).piece);
      }
    }

    /**
     * The status word after the move: castling rights cleared as the rights
     * table says, the side to move flipped, and the en-passant target the
     * midpoint of a double pawn move or none.
     */
    lemma MovingPieceStatus(p: Position, movingPiece: Piece)
      requires p.ColorImpliesKind() && from < 64 && AfterMovingPiece(p, movingPiece).Ok?
      ensures to < 64
      ensures AfterMovingPiece(p, movingPiece).value.Fields() == StatusFields(
        p.CanWhiteCastleKingside() && from != 7 && from != 4 && to != 7,
        p.CanWhiteCastleQueenside() && from != 0 && from != 4 && to != 0,
        p.CanBlackCastleKingside() && from != 63 && from != 60 && to != 63,
        p.CanBlackCastleQueenside() && from != 56 && from != 60 && to != 56,
        Not(p.CurrentTurn()),
        if IsDoublePawnMove(movingPiece) then Some((from + to) / 2) else None)
    {
      MovingPieceFields(p, movingPiece);
      CastleInvalidationRights(p);
    }

    /** The move flips the side and sets the en-passant target; the castling rights are those after invalidation. */
    lemma MovingPieceFields(p: Position, movingPiece: Piece)
      requires p.ColorImpliesKind() && from < 64 && AfterMovingPiece(p, movingPiece).Ok?
      ensures to < 64
      ensures var f := AfterCastleInvalidation(p).Fields();
        AfterMovingPiece(p, movingPiece).value.Fields() ==
          f.(turn := Not(f.turn), enPassant := if IsDoublePawnMove(movingPiece) then Some((from + to) / 2) else None)
    {
      var p1 := AfterCastleInvalidation(p);
      var p3 := Prepared(p, movingPiece).value;
      var p4 := AfterUpdateEnPassantTargetSquare(p3, movingPiece).value;
      var q0 := p4.SetAt(from, Empty).SetAt(to, Occupied(PromotedPiece(movingPiece)));
      assert AfterMovingPiece(p, movingPiece).value == q0.NextTurn();
      PreparedKeepsStatus(p, movingPiece);
      UpdateEnPassantSpec(p3, movingPiece);
      assert q0.status == p4.status;
      ComposeStatus(p1.Fields(), p1, p3, p4, q0, if IsDoublePawnMove(movingPiece) then Some((from + to) / 2) else None);
    }

    /** Castle invalidation aside, the preparation steps leave the status word alone. */
    lemma PreparedKeepsStatus(p: Position, movingPiece: Piece)
      requires p.ColorImpliesKind() && Prepared(p, movingPiece).Ok?
      ensures Prepared(p, movingPiece).value.status == AfterCastleInvalidation(p).status
    {
      CastlingStepsKeepStatus(p, movingPiece);
      EnPassantCaptureKeepsStatus(AfterMoveRookWhenCastling(AfterCastleInvalidation(p), movingPiece), movingPiece);
    }

    static lemma ComposeStatus(f: StatusFields, p1: Position, p3: Position, p4: Position, q0: Position, e: Option<SquareIndex>)
      requires p1.Fields() == f && p3.status == p1.status && p4.Fields() == p3.Fields().(enPassant := e)
      requires q0.status == p4.status
      ensures q0.NextTurn().Fields() == f.(turn := Not(f.turn), enPassant := e)
    {
      FieldsOfStatus(p1, p3);
      FieldsOfStatus(p4, q0);
      NextTurnFlips(q0);
    }

    /** The status word after `move_piece`; see `MovingPieceStatus`. */
    lemma MovePieceStatus(p: Position)
      requires p.ColorImpliesKind() && AfterMovePiece(p).Ok?
      ensures from < 64 && to < 64 && from in p.ColorMask()
      ensures AfterMovePiece(p).value.Fields() == StatusFields(
        p.CanWhiteCastleKingside() && from != 7 && from != 4 && to != 7,
        p.CanWhiteCastleQueenside() && from != 0 && from != 4 && to != 0,
        p.CanBlackCastleKingside() && from != 63 && from != 60 && to != 63,
        p.CanBlackCastleQueenside() && from != 56 && from != 60 && to != 56,
        Not(p.CurrentTurn()),
        if IsDoublePawnMove(p.At(from).piece) then Some((from + to) / 2) else None)
    {
      MovingPieceStatus(p, p.At(from).piece);
    }

    /** The board after castle invalidation, rook relocation and the en-passant capture. */
    function Prepared(p: Position, movingPiece: Piece): Result<Position>
      requires p.ColorImpliesKind()
    {
      AfterRemovePieceAfterEnPassant(AfterMoveRookWhenCastling(AfterCastleInvalidation(p), movingPiece), movingPiece)
    }

    /**
     * The steps before the landing keep the board coherent and change only
     * the castling rook's squares and the square of a pawn taken en passant.
     */
    lemma PreparationKeepsSquares(p: Position, movingPiece: Piece)
      requires p.ColorImpliesKind() && Prepared(p, movingPiece).Ok?
      ensures Prepared(p, movingPiece).value.ColorImpliesKind()
      ensures SquaresKept(p, Prepared(p, movingPiece).value, RookSquares(movingPiece) + CaptureSquares(p, movingPiece))
    {
      var p1 := AfterCastleInvalidation(p);
      var p2 := AfterMoveRookWhenCastling(p1, movingPiece);
      CastleInvalidationRights(p);
      SameMasksKept(p, p1);
      MoveRookWhenCastlingSpec(p1, movingPiece);
      EnPassantCaptureSpec(p2, movingPiece);
      assert CaptureSquares(p2, movingPiece) == CaptureSquares(p, movingPiece) by {
        CastlingStepsKeepStatus(p, movingPiece);
      }
      SquaresKeptTrans(p, p1, p2, {}, RookSquares(movingPiece), RookSquares(movingPiece));
      SquaresKeptTrans(p, p2, Prepared(p, movingPiece).value, RookSquares(movingPiece), CaptureSquares(p, movingPiece),
        RookSquares(movingPiece) + CaptureSquares(p, movingPiece));
    }

    /** Before the landing, a castling rook already stands beside the king and its corner is empty. */
    lemma PreparationMovesRook(p: Position, movingPiece: Piece)
      requires p.ColorImpliesKind() && CastlingRook(movingPiece).Some?
      ensures Prepared(p, movingPiece).Ok?
      ensures Prepared(p, movingPiece).value.ColorImpliesKind()
      ensures Prepared(p, movingPiece).value.At(CastlingRook(movingPiece).value.1) == Occupied(CastlingRook(movingPiece).value.2)
      ensures Prepared(p, movingPiece).value.At(CastlingRook(movingPiece).value.0) == Empty
    {
      var p1 := AfterCastleInvalidation(p);
      var p2 := AfterMoveRookWhenCastling(p1, movingPiece);
      CastleInvalidationRights(p);
      SameMasksKeepSquares(p, p1);
      MoveRookWhenCastlingSpec(p1, movingPiece);
      EnPassantCaptureSpec(p2, movingPiece);
    }

    /** Before the landing, the pawn taken en passant is gone. */
    lemma PreparationCapturesEnPassant(p: Position, movingPiece: Piece)
      requires p.ColorImpliesKind() && Prepared(p, movingPiece).Ok? && IsEnPassantCapture(p, movingPiece)
      ensures 0 <= CapturedPawnSquare(movingPiece.color) < 64
      ensures Prepared(p, movingPiece).value.ColorImpliesKind()
      ensures Prepared(p, movingPiece).value.At(CapturedPawnSquare(movingPiece.color)) == Empty
    {
      var p2 := AfterMoveRookWhenCastling(AfterCastleInvalidation(p), movingPiece);
      CastlingStepsKeepStatus(p, movingPiece);
      EnPassantCaptureSpec(p2, movingPiece);
    }

    /**
     * The landing: `from` emptied, the (possibly promoted) piece put on `to`,
     * every other square as before.
     */
    lemma LandingSquares(p3: Position, movingPiece: Piece)
      requires p3.ColorImpliesKind() && from < 64 && to < 64
      ensures AfterUpdateEnPassantTargetSquare(p3, movingPiece).Ok?
      ensures
        var q := AfterUpdateEnPassantTargetSquare(p3, movingPiece).value.SetAt(from, Empty)
          .SetAt(to, Occupied(PromotedPiece(movingPiece))).NextTurn();
        && q.ColorImpliesKind()
        && q.At(to) == Occupied(PromotedPiece(movingPiece))
        && (from != to ==> q.At(from) == Empty)
        && SquaresKept(p3, q, {from as int, to as int})
    {
      UpdateEnPassantSpec(p3, movingPiece);
      var p4 := AfterUpdateEnPassantTargetSquare(p3, movingPiece).value;
      var p5 := p4.SetAt(from, Empty);
      var q0 := p5.SetAt(to, Occupied(PromotedPiece(movingPiece)));
      var q := q0.NextTurn();
      SameMasksKeepSquares(p3, p4);
      p4.SetAtCoherent(from, Empty);
      p5.SetAtCoherent(to, Occupied(PromotedPiece(movingPiece)));
      p4.SetAtReadsBack(from, Empty);
      p5.SetAtReadsBack(to, Occupied(PromotedPiece(movingPiece)));
      if from != to {
        p5.SetAtKeepsSquare(to, Occupied(PromotedPiece(movingPiece)), from);
      }
      SameMasksKeepSquares(q0, q);
      forall j | 0 <= j < 64 && j !in {from as int, to as int}
        ensures q.At(j) == p3.At(j)
      {
        p4.SetAtKeepsSquare(from, Empty, j);
        p5.SetAtKeepsSquare(to, Occupied(PromotedPiece(movingPiece)), j);
      }
    }

    /** After a successful move the (possibly promoted) piece stands on `to` and `from` is empty. */
    lemma MovingPieceLands(p: Position, movingPiece: Piece)
      requires p.ColorImpliesKind() && from < 64 && AfterMovingPiece(p, movingPiece).Ok?
      ensures AfterMovingPiece(p, movingPiece).value.ColorImpliesKind()
      ensures AfterMovingPiece(p, movingPiece).value.At(to) == Occupied(PromotedPiece(movingPiece))
      ensures from != to ==> AfterMovingPiece(p, movingPiece).value.At(from) == Empty
      ensures Prepared(p, movingPiece).Ok? && Prepared(p, movingPiece).value.ColorImpliesKind()
      ensures SquaresKept(Prepared(p, movingPiece).value, AfterMovingPiece(p, movingPiece).value, {from as int, to as int})
    {
      PreparationKeepsSquares(p, movingPiece);
      LandingSquares(Prepared(p, movingPiece).value, movingPiece);
    }

    /** The landing leaves a square other than `from` and `to` as the preparation left it. */
    lemma MovingPieceKeepsSquare(p: Position, movingPiece: Piece, j: int)
      requires p.ColorImpliesKind() && from < 64 && AfterMovingPiece(p, movingPiece).Ok?
      requires 0 <= j < 64 && j != from as int && j != to as int
      ensures Prepared(p, movingPiece).Ok? && Prepared(p, movingPiece).value.ColorImpliesKind()
      ensures AfterMovingPiece(p, movingPiece).value.ColorImpliesKind()
      ensures AfterMovingPiece(p, movingPiece).value.At(j) == Prepared(p, movingPiece).value.At(j)
    {
      MovingPieceLands(p, movingPiece);
    }

    /** A successful move changes no square outside `TouchedSquares`. */
    lemma MovingPieceKeepsSquares(p: Position, movingPiece: Piece)
      requires p.ColorImpliesKind() && from < 64 && AfterMovingPiece(p, movingPiece).Ok?
      ensures AfterMovingPiece(p, movingPiece).value.ColorImpliesKind()
      ensures SquaresKept(p, AfterMovingPiece(p, movingPiece).value, TouchedSquares(p, movingPiece))
    {
      PreparationKeepsSquares(p, movingPiece);
      MovingPieceLands(p, movingPiece);
      SquaresKeptTrans(p, Prepared(p, movingPiece).value, AfterMovingPiece(p, movingPiece).value,
        RookSquares(movingPiece) + CaptureSquares(p, movingPiece), {from as int, to as int}, TouchedSquares(p, movingPiece));
    }

    /** A successful castling move leaves the rook beside the king and the rook's corner empty. */
    lemma MovingPieceMovesRook(p: Position, movingPiece: Piece)
      requires p.ColorImpliesKind() && from < 64 && AfterMovingPiece(p, movingPiece).Ok? && CastlingRook(movingPiece).Some?
      ensures AfterMovingPiece(p, movingPiece).value.ColorImpliesKind()
      ensures AfterMovingPiece(p, movingPiece).value.At(CastlingRook(movingPiece).value.1) == Occupied(CastlingRook(movingPiece).value.2)
      ensures AfterMovingPiece(p, movingPiece).value.At(CastlingRook(movingPiece).value.0) == Empty
    {
      PreparationMovesRook(p, movingPiece);
      MovingPieceKeepsSquare(p, movingPiece, CastlingRook(movingPiece).value.1);
      MovingPieceKeepsSquare(p, movingPiece, CastlingRook(movingPiece).value.0);
    }

    /** A successful en-passant capture leaves the taken pawn's square empty. */
    lemma MovingPieceCapturesEnPassant(p: Position, movingPiece: Piece)
      requires p.ColorImpliesKind() && from < 64 && AfterMovingPiece(p, movingPiece).Ok? && IsEnPassantCapture(p, movingPiece)
      ensures 0 <= CapturedPawnSquare(movingPiece.color) < 64
      ensures AfterMovingPiece(p, movingPiece).value.ColorImpliesKind()
      ensures AfterMovingPiece(p, movingPiece).value.At(CapturedPawnSquare(movingPiece.color)) == Empty
    {
      PreparationCapturesEnPassant(p, movingPiece);
      MovingPieceLands(p, movingPiece);
    }

    /**
     * After `move_piece`: the (possibly promoted) piece stands on `to`,
     * `from` is empty, a castling rook stands beside the king with its
     * corner emptied, a pawn taken en passant is gone, and every square the
     * move does not touch is as before.
     */
    lemma MovePieceSquares(p: Position)
      requires p.ColorImpliesKind() && AfterMovePiece(p).Ok?
      ensures from < 64 && to < 64 && from in p.ColorMask()
      ensures AfterMovePiece(p).value.ColorImpliesKind()
      ensures AfterMovePiece(p).value.At(to) == Occupied(PromotedPiece(p.At(from).piece))
      ensures from != to ==> AfterMovePiece(p).value.At(from) == Empty
      ensures SquaresKept(p, AfterMovePiece(p).value, TouchedSquares(p, p.At(from).piece))
      ensures CastlingRook(p.At(from).piece).Some? ==>
        && AfterMovePiece(p).value.At(CastlingRook(p.At(from).piece).value.1) == Occupied(CastlingRook(p.At(from).piece).value.2)
        && AfterMovePiece(p).value.At(CastlingRook(p.At(from).piece).value.0) == Empty
      ensures IsEnPassantCapture(p, p.At(from).piece) ==>
        && 0 <= CapturedPawnSquare(p.At(from).piece.color) < 64
        && AfterMovePiece(p).value.At(CapturedPawnSquare(p.At(from).piece.color)) == Empty
    {
      var movingPiece := p.At(from).piece;
      MovingPieceLands(p, movingPiece);
      MovingPieceKeepsSquares(p, movingPiece);
      if CastlingRook(movingPiece).Some? {
        MovingPieceMovesRook(p, movingPiece);
      }
      if IsEnPassantCapture(p, movingPiece) {
        MovingPieceCapturesEnPassant(p, movingPiece);
      }
    }

    /** A successful move keeps the board invariant. */
    lemma MovingPieceKeepsValid(p: Position, movingPiece: Piece)
      requires p.Valid() && from < 64 && AfterMovingPiece(p, movingPiece).Ok?
      ensures AfterMovingPiece(p, movingPiece).value.Valid()
    {
      var p1 := AfterCastleInvalidation(p);
      var p2 := AfterMoveRookWhenCastling(p1, movingPiece);
      var p3 := AfterRemovePieceAfterEnPassant(p2, movingPiece).value;
      var p4 := AfterUpdateEnPassantTargetSquare(p3, movingPiece).value;
      var p5 := p4.SetAt(from, Empty);
      var q0 := p5.SetAt(to, Occupied(PromotedPiece(movingPiece)));
      assert AfterMovingPiece(p, movingPiece).value == q0.NextTurn();
      CastleInvalidationRights(p);
      SameMasksKeepSquares(p, p1);
      MoveRookWhenCastlingSpec(p1, movingPiece);
      EnPassantCaptureSpec(p2, movingPiece);
      UpdateEnPassantSpec(p3, movingPiece);
      SameMasksKeepSquares(p3, p4);
      p4.SetAtValid(from, Empty);
      p5.SetAtValid(to, Occupied(PromotedPiece(movingPiece)));
      SameMasksKeepSquares(q0, q0.NextTurn());
    }

    /** `move_piece` keeps the board invariant. */
    lemma MovePieceKeepsValid(p: Position)
      requires p.Valid() && AfterMovePiece(p).Ok?
      ensures AfterMovePiece(p).value.Valid()
    {
      MovingPieceKeepsValid(p, p.At(from).piece);
    }

    /** A move keeps every square decodable. */
    lemma MovePieceKeepsCoherent(p: Position)
      requires p.ColorImpliesKind() && AfterMovePiece(p).Ok?
      ensures AfterMovePiece(p).value.ColorImpliesKind()
    {
      MovingPieceLands(p, p.At(from).piece);
    }

    /** `piece_at_source_or_panic(&Move)`: the piece on the move's source square. */
    function PieceAtSource(p: Position): (r: Result<Piece>)
      requires from < 64 && p.ColorImpliesKind()
      ensures r.Err? <==> from !in p.ColorMask()
      ensures r.Ok? ==> MaybePieceAt(p, from) == Some(r.value)
    {
      PieceAtSourceOrPanic(p, from)
    }
  }

  /**
   * `q` is `p` with `rook` on `rookTo` and `rookFrom` emptied: every other
   * square and the status word are unchanged.
   */
  predicate RookRelocated(p: Position, q: Position, rookTo: int, rookFrom: int, rook: Piece)
    requires p.ColorImpliesKind() && 0 <= rookTo < 64 && 0 <= rookFrom < 64
  {
    && q.ColorImpliesKind()
    && q.At(rookTo) == Occupied(rook)
    && q.At(rookFrom) == Empty
    && q.status == p.status
    && SquaresKept(p, q, {rookTo, rookFrom})
    && (p.Valid() ==> q.Valid())
  }

  lemma RelocateRook(p: Position, rookTo: int, rookFrom: int, rook: Piece)
    requires p.ColorImpliesKind() && 0 <= rookTo < 64 && 0 <= rookFrom < 64 && rookTo != rookFrom
    ensures RookRelocated(p, p.SetAt(rookTo, Occupied(rook)).SetAt(rookFrom, Empty), rookTo, rookFrom, rook)
  {
    var p1 := p.SetAt(rookTo, Occupied(rook));
    var q := p1.SetAt(rookFrom, Empty);
    p.SetAtCoherent(rookTo, Occupied(rook));
    p1.SetAtCoherent(rookFrom, Empty);
    p.SetAtReadsBack(rookTo, Occupied(rook));
    p1.SetAtReadsBack(rookFrom, Empty);
    p1.SetAtKeepsSquare(rookFrom, Empty, rookTo);
    if p.Valid() {
      p.SetAtValid(rookTo, Occupied(rook));
      p1.SetAtValid(rookFrom, Empty);
    }
    forall j | 0 <= j < 64 && j !in {rookTo, rookFrom}
      ensures q.At(j) == p.At(j)
    {
      p.SetAtKeepsSquare(rookTo, Occupied(rook), j);
      p1.SetAtKeepsSquare(rookFrom, Empty, j);
    }
  }

  /** Every square outside `touched` decodes in `q` as in `p`. */
  predicate SquaresKept(p: Position, q: Position, touched: set<int>)
    requires p.ColorImpliesKind() && q.ColorImpliesKind()
  {
    forall j :: 0 <= j < 64 && j !in touched ==> q.At(j) == p.At(j)
  }

  /** Positions with the same piece masks keep every square. */
  lemma SameMasksKept(p: Position, q: Position)
    requires SameMasks(p, q) && p.ColorImpliesKind()
    ensures q.ColorImpliesKind() && SquaresKept(p, q, {})
  {
    SameMasksKeepSquares(p, q);
  }

  /** Squares kept by two positions in a row are kept by both together. */
  lemma SquaresKeptTrans(p: Position, q: Position, r: Position, a: set<int>, b: set<int>, c: set<int>)
    requires p.ColorImpliesKind() && q.ColorImpliesKind() && r.ColorImpliesKind()
    requires SquaresKept(p, q, a) && SquaresKept(q, r, b) && a + b <= c
    ensures SquaresKept(p, r, c)
  {
    forall j | 0 <= j < 64 && j !in c
      ensures r.At(j) == p.At(j)
    {
      assert j !in a && j !in b;
    }
  }

  /** Equal status words decode to equal status fields. */
  lemma FieldsOfStatus(p: Position, q: Position)
    requires p.status == q.status
    ensures p.Fields() == q.Fields()
  {
  }

  /** `q` is `p` with `square` emptied: every other square and the status word are unchanged. */
  predicate SquareCleared(p: Position, q: Position, square: int)
    requires p.ColorImpliesKind() && 0 <= square < 64
  {
    && q.ColorImpliesKind()
    && q.At(square) == Empty
    && q.status == p.status
    && SquaresKept(p, q, {square})
    && (p.Valid() ==> q.Valid())
  }

  lemma ClearSquare(p: Position, square: int)
    requires p.ColorImpliesKind() && 0 <= square < 64
    ensures SquareCleared(p, p.SetAt(square, Empty), square)
  {
    var q := p.SetAt(square, Empty);
    p.SetAtCoherent(square, Empty);
    p.SetAtReadsBack(square, Empty);
    if p.Valid() {
      p.SetAtValid(square, Empty);
    }
    forall j | 0 <= j < 64 && j !in {square}
      ensures q.At(j) == p.At(j)
    {
      p.SetAtKeepsSquare(square, Empty, j);
    }
  }

  function AbsDiff(a: int, b: int): nat
  {
    if a < b then b - a else a - b
  }

  /** Clears one square, an error from 64 on or below 0. */
  function EmptySquare(p: Position, square: int): (r: Result<Position>)
    ensures r.Ok? <==> 0 <= square < 64
  {
    if 0 <= square < 64 then Ok(p.SetAt(square, Empty)) else Err("square index out of range")
  }

  function BaseMove(from: SquareIndex, to: SquareIndex): (r: Move)
    ensures r.from == from && r.to == to && r.promotedPieceKind.None?
  {
    Move(from, to, None)
  }

  function SquareFileChar(index: SquareIndex): char
  {
    (index % 8 + 'a' as int) as char
  }

  function SquareRankChar(index: SquareIndex): char
  {
    (index / 8 + '1' as int) as char
  }

  function FileOf(c: char): int { c as int - 'a' as int }

  function RankOf(c: char): int { c as int - '1' as int }

  /** Parses a UCI move; an error (the source panics) when the text does not match the pattern. */
  function FromUciString(s: string): (r: Result<Move>)
    ensures r.Ok? <==> IsUciString(s)
    ensures r.Ok? ==> r.value.from < 64 && r.value.to < 64
    ensures r.Ok? ==> (r.value.promotedPieceKind.None? <==> |s| == 4)
  {
    if !IsUciString(s) then Err("Invalid UCI string")
    else
      var fromCol := FileOf(s[0]);
      var fromRow := RankOf(s[1]);
      var toCol := FileOf(s[2]);
      var toRow := RankOf(s[3]);
      var promotedPiece := if |s| == 4 then None else PromotionKindOf(s[4]);
      Ok(Move(fromRow * 8 + fromCol, toRow * 8 + toCol, promotedPiece))
  }

  /** Printing then parsing gives the move back, for squares on the board and a promotable kind. */
  lemma UciRoundTrip(m: Move)
    requires m.from < 64 && m.to < 64
    requires m.promotedPieceKind.None? || m.promotedPieceKind.value in PromotableKinds
    ensures m.ToUciString().Ok?
    ensures FromUciString(m.ToUciString().value) == Ok(m)
  {
    var s := m.ToUciString().value;
    assert FileOf(s[0]) == m.from % 8 && RankOf(s[1]) == m.from / 8;
    assert FileOf(s[2]) == m.to % 8 && RankOf(s[3]) == m.to / 8;
  }

  /** Parsing then printing gives the text back. */
  lemma UciTextRoundTrip(s: string)
    requires IsUciString(s)
    ensures FromUciString(s).Ok? && FromUciString(s).value.ToUciString() == Ok(s)
  {
    var m := FromUciString(s).value;
    var t := m.ToUciString().value;
    assert t[0] == s[0] && t[1] == s[1] && t[2] == s[2] && t[3] == s[3];
    if |s| == 5 {
      assert t[4] == s[4];
    }
    assert t == s;
  }

  /** `move_piece_uci`: parse the text, then apply the move. */
  method MovePieceUci(board: ChessBoard, uci: string) returns (ok: bool)
    requires board.State().ColorImpliesKind()
    modifies board
    ensures ok <==> FromUciString(uci).Ok? && FromUciString(uci).value.AfterMovePiece(old(board.State())).Ok?
    ensures ok ==> board.State() == FromUciString(uci).value.AfterMovePiece(old(board.State())).value
  {
    match FromUciString(uci) {
      case Err(_) => return false;
      case Ok(mov) => ok := mov.MovePiece(board);
    }
  }
}
