/** Piece kinds, colours and the named piece constants of the board representation crate. */
module Pieces {

  datatype PieceKind = Pawn | Rook | Knight | Bishop | Queen | King

  datatype Color = White | Black

  /** The `!` operator on colours: the other side. */
  function Not(c: Color): (r: Color)
    ensures r != c
  {
    match c
    case White => Black
    case Black => White
  }

  lemma NotInvolution(c: Color)
    ensures Not(Not(c)) == c
    ensures Not(c) != c
  {
  }

  /** A piece is a kind and a colour; equality is structural, as the derived PartialEq. */
  datatype Piece = Piece(kind: PieceKind, color: Color)

  lemma PieceEquality(a: Piece, b: Piece)
    ensures a == b <==> a.kind == b.kind && a.color == b.color
  {
  }

  /** The kinds a pawn may promote to, in the order the generator emits them. */
  const PromotableKinds: seq<PieceKind> := [Queen, Rook, Bishop, Knight]

  lemma PromotableKindsFacts()
    ensures |PromotableKinds| == 4
    ensures PromotableKinds == [Queen, Rook, Bishop, Knight]
    ensures forall i, j :: 0 <= i < j < 4 ==> PromotableKinds[i] != PromotableKinds[j]
    ensures Pawn !in PromotableKinds && King !in PromotableKinds
    ensures forall k: PieceKind :: k in PromotableKinds <==> k != Pawn && k != King
  {
  }

  const WhitePawn: Piece := Piece(Pawn, White)
  const WhiteRook: Piece := Piece(Rook, White)
  const WhiteKnight: Piece := Piece(Knight, White)
  const WhiteBishop: Piece := Piece(Bishop, White)
  const WhiteQueen: Piece := Piece(Queen, White)
  const WhiteKing: Piece := Piece(King, White)
  const BlackPawn: Piece := Piece(Pawn, Black)
  const BlackRook: Piece := Piece(Rook, Black)
  const BlackKnight: Piece := Piece(Knight, Black)
  const BlackBishop: Piece := Piece(Bishop, Black)
  const BlackQueen: Piece := Piece(Queen, Black)
  const BlackKing: Piece := Piece(King, Black)

  /** The twelve constants in declaration order. */
  const NamedPieces: seq<Piece> := [
    WhitePawn, WhiteRook, WhiteKnight, WhiteBishop, WhiteQueen, WhiteKing,
    BlackPawn, BlackRook, BlackKnight, BlackBishop, BlackQueen, BlackKing
  ]

  /** The kinds in the order of the PieceKind enum. */
  const KindOrder: seq<PieceKind> := [Pawn, Rook, Knight, Bishop, Queen, King]

  lemma NamedPiecesFacts()
    ensures |NamedPieces| == 12
    ensures forall i :: 0 <= i < 6 ==> NamedPieces[i] == Piece(KindOrder[i], White)
    ensures forall i :: 6 <= i < 12 ==> NamedPieces[i] == Piece(KindOrder[i - 6], Black)
    ensures forall i, j :: 0 <= i < j < 12 ==> NamedPieces[i] != NamedPieces[j]
    ensures forall p: Piece :: p in NamedPieces
  {
    forall p: Piece ensures p in NamedPieces {
      var k := match p.kind
        case Pawn => 0 case Rook => 1 case Knight => 2
        case Bishop => 3 case Queen => 4 case King => 5;
      var i := if p.color == White then k else k + 6;
      assert NamedPieces[i] == p;
    }
  }
}
