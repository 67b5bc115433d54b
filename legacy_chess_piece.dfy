/**
 * The older application crate's piece module. Its PieceKind, Color and `!` are
 * the same as the board representation crate's (module Pieces); what it adds are
 * named constructors.
 */
module LegacyPieces {
  import opened Pieces

  function WhitePawnPiece(): (r: Piece)
    ensures r.kind == Pawn && r.color == White
  {
    Piece(Pawn, White)
  }

  function WhiteQueenPiece(): (r: Piece)
    ensures r.kind == Queen && r.color == White
  {
    Piece(Queen, White)
  }

  function BlackPawnPiece(): (r: Piece)
    ensures r.kind == Pawn && r.color == Black
  {
    Piece(Pawn, Black)
  }

  function BlackQueenPiece(): (r: Piece)
    ensures r.kind == Queen && r.color == Black
  {
    Piece(Queen, Black)
  }

  /**
   * Used by the older move application for castling. Not defined in
   * src/chess_piece.rs, which has only white_pawn, white_queen, black_pawn
   * and black_queen; the same holds for BlackRookPiece.
   */
  function WhiteRookPiece(): (r: Piece)
    ensures r.kind == Rook && r.color == White
  {
    Piece(Rook, White)
  }

  function BlackRookPiece(): (r: Piece)
    ensures r.kind == Rook && r.color == Black
  {
    Piece(Rook, Black)
  }

  /** The constructors agree with the constants and are pairwise distinct. */
  lemma ConstructorsFacts()
    ensures WhitePawnPiece() == WhitePawn && WhiteQueenPiece() == WhiteQueen
    ensures BlackPawnPiece() == BlackPawn && BlackQueenPiece() == BlackQueen
    ensures WhitePawnPiece().color == Not(BlackPawnPiece().color)
    ensures WhitePawnPiece() != WhiteQueenPiece() && BlackPawnPiece() != BlackQueenPiece()
    ensures WhitePawnPiece() != BlackPawnPiece() && WhiteQueenPiece() != BlackQueenPiece()
  {
  }
}
