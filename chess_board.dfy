/**
 * The bitboard position: eight 64-bit occupancy masks (two colours, six kinds)
 * and a packed status word, the delta arithmetic every move generator uses, and
 * the mutable board object that move application updates in place.
 */
module Board {
  import opened Wrappers
  import opened Pieces
  import opened Directions

  /**
   * A `u64` piece mask, represented by the set of the indices of its one bits.
   * The source only ever combines piece masks bit by bit, and each of its
   * operations is a set operation here: `1 << i` is `{i}`, `a & b` is `a * b`,
   * `a | b` is `a + b`, `a & !b` is `a - b`, and `m & (1 << i) != 0` is `i in m`.
   */
  type Bitboard = s: set<int> | forall i | i in s :: 0 <= i < 64

  /** The packed `u64` status word, kept bit for bit. */
  type StatusWord = bv64

  /** `SquareIndex` is a u8 in the source. */
  type SquareIndex = i: int | 0 <= i < 256

  /** `UnsafeSquareIndex` is an i8 in the source: -1 stands for "off the board". */
  type UnsafeSquareIndex = i: int | -128 <= i < 128

  datatype Square = Empty | Occupied(piece: Piece)

  // ---------------------------------------------------------------------------
  // Delta arithmetic. The index is cast to i8 and divided with truncation
  // toward zero, as the source's `/` and `%` on i8 do.
  // ---------------------------------------------------------------------------

  function AsI8(index: SquareIndex): int
  {
    if index < 128 then index else index - 256
  }

  function TruncDiv8(a: int): int
  {
    if a >= 0 then a / 8 else -((-a) / 8)
  }

  function TruncRem8(a: int): int
  {
    a - 8 * TruncDiv8(a)
  }

  /**
   * Moves `index` by (rank offset, file offset). The result is -1 when the
   * target rank or file leaves 0..7, so a step never wraps across a file edge.
   */
  function ApplyDelta(index: SquareIndex, delta: Delta): (r: UnsafeSquareIndex)
    ensures r == -1 || 0 <= r < 64
    ensures index < 64 ==>
      (r != -1 <==> 0 <= index / 8 + delta.0 < 8 && 0 <= index % 8 + delta.1 < 8)
    ensures index < 64 && r != -1 ==>
      r / 8 == index / 8 + delta.0 && r % 8 == index % 8 + delta.1
  {
    var i8index := AsI8(index);
    if 0 <= TruncDiv8(i8index) + delta.0 < 8 && 0 <= TruncRem8(i8index) + delta.1 < 8 then
      i8index + delta.0 * 8 + delta.1
    else
      -1
  }

  /** Moves `index` by `dist` times `delta`. */
  function ApplyDeltaWithDist(index: SquareIndex, delta: Delta, dist: nat): (r: UnsafeSquareIndex)
    ensures r == -1 || 0 <= r < 64
  {
    ApplyDelta(index, (delta.0 * dist, delta.1 * dist))
  }

  /** The `dist`-th square along `delta` is `dist` times the delta away, or -1 off the board. */
  lemma ApplyDeltaWithDistOffsets(index: SquareIndex, delta: Delta, dist: nat)
    requires index < 64
    ensures var r := ApplyDeltaWithDist(index, delta, dist);
      (r != -1 <==> 0 <= index / 8 + delta.0 * dist < 8 && 0 <= index % 8 + delta.1 * dist < 8) &&
      (r != -1 ==> r / 8 == index / 8 + delta.0 * dist && r % 8 == index % 8 + delta.1 * dist)
  {
  }

  /** Along a one-square direction, no square further than 23 steps is on the board. */
  lemma RayLeavesBoard(index: SquareIndex, delta: Delta, dist: nat)
    requires UnitDirection(delta) && dist >= 24
    ensures ApplyDeltaWithDist(index, delta, dist) == -1
  {
    var i8index := AsI8(index);
    assert -16 <= TruncDiv8(i8index) < 16;
    assert -8 < TruncRem8(i8index) < 8;
    var d: int := dist;
    if delta.0 == 1 {
      assert delta.0 * d == d;
    } else if delta.0 == -1 {
      assert delta.0 * d == -d;
    } else if delta.1 == 1 {
      assert delta.1 * d == d;
    } else {
      assert delta.1 == -1;
      assert delta.1 * d == -d;
    }
  }

  function WithinBounds(index: int): (r: Option<SquareIndex>)
    ensures r.Some? <==> 0 <= index < 64
    ensures r.Some? ==> r.value == index
  {
    if 0 <= index < 64 then Some(index) else None
  }

  /** A delta lands on the board exactly when its target rank and file are both in 0..7. */
  lemma WithinBoundsOfDelta(index: SquareIndex, delta: Delta)
    requires index < 64
    ensures WithinBounds(ApplyDelta(index, delta)).Some? <==>
      0 <= index / 8 + delta.0 < 8 && 0 <= index % 8 + delta.1 < 8
    ensures WithinBounds(ApplyDelta(index, delta)).Some? ==>
      WithinBounds(ApplyDelta(index, delta)).value == (index / 8 + delta.0) * 8 + index % 8 + delta.1
  {
  }


  /** `1 << index`: the one-bit mask of a square. The shift overflows (a debug panic) from 64 on. */
  function SquareMask(index: int): Bitboard
    requires 0 <= index < 64
  {
    {index}
  }

  // ---------------------------------------------------------------------------
  // The status word: bits 0-3 castling rights, bit 4 the side to move
  // (1 is White), bits 5-10 the en-passant target with all ones for none.
  // ---------------------------------------------------------------------------

  const WhiteKingsideCastleMask: StatusWord := 0x1
  const WhiteQueensideCastleMask: StatusWord := 0x2
  const BlackKingsideCastleMask: StatusWord := 0x4
  const BlackQueensideCastleMask: StatusWord := 0x8
  const CurrentTurnMask: StatusWord := 0x10
  /** `63 << 5`. */
  const EnPassantMask: StatusWord := 0x7E0

  /** The fields the status word packs, as its getters decode them. */
  datatype StatusFields = StatusFields(
    whiteKingside: bool,
    whiteQueenside: bool,
    blackKingside: bool,
    blackQueenside: bool,
    turn: Color,
    enPassant: Option<SquareIndex>)

  // ---------------------------------------------------------------------------
  // The position value.
  // ---------------------------------------------------------------------------

  /** The order in which `at` tests the kind masks. */
  function AtTestOrder(k: PieceKind): nat
  {
    match k
    case Pawn => 0
    case Knight => 1
    case Bishop => 2
    case Rook => 3
    case Queen => 4
    case King => 5
  }

  datatype Position = Position(
    whitePieces: Bitboard,
    blackPieces: Bitboard,
    pawns: Bitboard,
    knights: Bitboard,
    bishops: Bitboard,
    rooks: Bitboard,
    queens: Bitboard,
    kings: Bitboard,
    status: StatusWord)
  {
    function ColorMask(): Bitboard
    {
      whitePieces + blackPieces
    }

    function KindMask(): Bitboard
    {
      pawns + knights + bishops + rooks + queens + kings
    }

    /** The mask of one colour. */
    function PiecesOf(c: Color): Bitboard
    {
      match c
      case White => whitePieces
      case Black => blackPieces
    }

    /** The mask of one kind. */
    function PiecesOfKind(k: PieceKind): Bitboard
    {
      match k
      case Pawn => pawns
      case Knight => knights
      case Bishop => bishops
      case Rook => rooks
      case Queen => queens
      case King => kings
    }

    /** `at(index)` does not reach its `unreachable!`: a coloured bit is in some kind mask. */
    predicate Decodable(index: int)
    {
      index in ColorMask() ==> index in KindMask()
    }

    /** Every square is decodable. */
    predicate ColorImpliesKind()
    {
      ColorMask() <= KindMask()
    }

    /**
     * The board invariant: the colour masks are disjoint, the kind masks are
     * pairwise disjoint and both families cover the same squares.
     */
    predicate Valid()
    {
      whitePieces * blackPieces == {} && ColorMask() == KindMask() && KindsDisjoint()
    }

    predicate KindsDisjoint()
    {
      && pawns * (knights + bishops + rooks + queens + kings) == {}
      && knights * (bishops + rooks + queens + kings) == {}
      && bishops * (rooks + queens + kings) == {}
      && rooks * (queens + kings) == {}
      && queens * kings == {}
    }

    /** No kind tested before `k` (pawns, knights, bishops, rooks, queens, kings) holds the bit. */
    predicate NoEarlierKind(index: int, k: PieceKind)
    {
      && (AtTestOrder(k) > 0 ==> index !in pawns)
      && (AtTestOrder(k) > 1 ==> index !in knights)
      && (AtTestOrder(k) > 2 ==> index !in bishops)
      && (AtTestOrder(k) > 3 ==> index !in rooks)
      && (AtTestOrder(k) > 4 ==> index !in queens)
    }

    /**
     * The square's contents: empty when its bit is in neither colour mask,
     * otherwise White iff the bit is in the white mask, with the kind of the
     * first of pawns, knights, bishops, rooks, queens, kings holding the bit
     * (which matters only when the kind masks overlap).
     */
    function At(index: int): (r: Square)
      requires 0 <= index < 64 && Decodable(index)
      ensures r == Empty <==> index !in ColorMask()
      ensures r.Occupied? ==> (r.piece.color == White <==> index in whitePieces)
      ensures r.Occupied? ==> index in PiecesOfKind(r.piece.kind)
    {
      if index !in ColorMask() then
        Empty
      else
        var color := if index !in whitePieces then Black else White;
        var kind :=
          if index in pawns then Pawn
          else if index in knights then Knight
          else if index in bishops then Bishop
          else if index in rooks then Rook
          else if index in queens then Queen
          else King;
        Occupied(Piece(kind, color))
    }

    /**
     * The kind `at` reports is the first of pawns, knights, bishops, rooks,
     * queens, kings holding the bit, also when the kind masks overlap.
     */
    lemma AtKindIsFirst(index: int)
      requires 0 <= index < 64 && Decodable(index) && index in ColorMask()
      ensures index in PiecesOfKind(At(index).piece.kind)
      ensures NoEarlierKind(index, At(index).piece.kind)
    {
    }

    /**
     * On a valid board `at` decodes the masks exactly: a square is empty iff its
     * bit is in no colour mask, and holds a piece iff its bit is in that piece's
     * colour mask and kind mask.
     */
    lemma AtDecodes(index: int)
      requires 0 <= index < 64 && Valid()
      ensures At(index) == Empty <==> index !in ColorMask()
      ensures forall piece: Piece :: At(index) == Occupied(piece) <==>
        index in PiecesOf(piece.color) && index in PiecesOfKind(piece.kind)
    {
      assert index !in whitePieces * blackPieces;
      assert index !in pawns * (knights + bishops + rooks + queens + kings);
      assert index !in knights * (bishops + rooks + queens + kings);
      assert index !in bishops * (rooks + queens + kings);
      assert index !in rooks * (queens + kings);
      assert index !in queens * kings;
      forall piece: Piece
        ensures At(index) == Occupied(piece) <==>
          index in PiecesOf(piece.color) && index in PiecesOfKind(piece.kind)
      {
        match piece.color
        case White =>
          match piece.kind {
            case Pawn =>
            case Knight =>
            case Bishop =>
            case Rook =>
            case Queen =>
            case King =>
          }
        case Black =>
          match piece.kind {
            case Pawn =>
            case Knight =>
            case Bishop =>
            case Rook =>
            case Queen =>
            case King =>
          }
      }
    }

    /** Clears the square in all eight masks, then sets its colour bit and its kind bit when occupied. */
    function SetAt(index: int, square: Square): Position
      requires 0 <= index < 64
    {
      var mask := SquareMask(index);
      var cleared := Position(whitePieces - mask, blackPieces - mask, pawns - mask, knights - mask,
        bishops - mask, rooks - mask, queens - mask, kings - mask, status);
      match square
      case Empty => cleared
      case Occupied(piece) => cleared.AddColor(piece.color, mask).AddKind(piece.kind, mask)
    }

    /** `|=` of `mask` into the mask of colour `c`. */
    function AddColor(c: Color, mask: Bitboard): Position
    {
      match c
      case White => this.(whitePieces := whitePieces + mask)
      case Black => this.(blackPieces := blackPieces + mask)
    }

    /** `|=` of `mask` into the mask of kind `k`. */
    function AddKind(k: PieceKind, mask: Bitboard): Position
    {
      match k
      case Pawn => this.(pawns := pawns + mask)
      case Rook => this.(rooks := rooks + mask)
      case Knight => this.(knights := knights + mask)
      case Bishop => this.(bishops := bishops + mask)
      case Queen => this.(queens := queens + mask)
      case King => this.(kings := kings + mask)
    }

    /** After `set_at(i, s)`, `at(i) == s`. */
    lemma SetAtReadsBack(index: int, square: Square)
      requires 0 <= index < 64
      ensures SetAt(index, square).Decodable(index)
      ensures SetAt(index, square).At(index) == square
    {
      match square
      case Empty =>
      case Occupied(piece) =>
        match piece.kind
        case Pawn =>
        case Knight =>
        case Bishop =>
        case Rook =>
        case Queen =>
        case King =>
    }

    /** The mask of colour `c` after `set_at(i, s)`: bit `i` set iff `s` holds a piece of colour `c`. */
    lemma SetAtColorMask(index: int, square: Square, c: Color)
      requires 0 <= index < 64
      ensures SetAt(index, square).PiecesOf(c) ==
        if square.Occupied? && square.piece.color == c then PiecesOf(c) + {index} else PiecesOf(c) - {index}
    {
      match square
      case Empty =>
      case Occupied(piece) =>
        match c
        case White =>
        case Black =>
    }

    /** The mask of kind `k` after `set_at(i, s)`: bit `i` set iff `s` holds a piece of kind `k`. */
    lemma SetAtKindMask(index: int, square: Square, k: PieceKind)
      requires 0 <= index < 64
      ensures SetAt(index, square).PiecesOfKind(k) ==
        if square.Occupied? && square.piece.kind == k then PiecesOfKind(k) + {index} else PiecesOfKind(k) - {index}
    {
      match square
      case Empty =>
      case Occupied(piece) =>
        match k
        case Pawn =>
        case Knight =>
        case Bishop =>
        case Rook =>
        case Queen =>
        case King =>
    }

    /** `set_at(i, s)` changes no bit of any mask outside square `i` and leaves the status word alone. */
    lemma SetAtKeepsMasks(index: int, square: Square)
      requires 0 <= index < 64
      ensures SetAt(index, square).status == status
      ensures forall c: Color :: SetAt(index, square).PiecesOf(c) - {index} == PiecesOf(c) - {index}
      ensures forall k: PieceKind :: SetAt(index, square).PiecesOfKind(k) - {index} == PiecesOfKind(k) - {index}
    {
      forall c: Color
        ensures SetAt(index, square).PiecesOf(c) - {index} == PiecesOf(c) - {index}
      {
        SetAtColorMask(index, square, c);
      }
      forall k: PieceKind
        ensures SetAt(index, square).PiecesOfKind(k) - {index} == PiecesOfKind(k) - {index}
      {
        SetAtKindMask(index, square, k);
      }
    }

    /** Bit `j != i` of every mask is the same after `set_at(i, s)`. */
    lemma SetAtKeepsBits(index: int, square: Square, j: int)
      requires 0 <= index < 64 && j != index
      ensures var q := SetAt(index, square);
        && (j in q.whitePieces <==> j in whitePieces) && (j in q.blackPieces <==> j in blackPieces)
        && (j in q.pawns <==> j in pawns) && (j in q.knights <==> j in knights)
        && (j in q.bishops <==> j in bishops) && (j in q.rooks <==> j in rooks)
        && (j in q.queens <==> j in queens) && (j in q.kings <==> j in kings)
    {
      SetAtColorMask(index, square, White);
      SetAtColorMask(index, square, Black);
      SetAtKindMask(index, square, Pawn);
      SetAtKindMask(index, square, Knight);
      SetAtKindMask(index, square, Bishop);
      SetAtKindMask(index, square, Rook);
      SetAtKindMask(index, square, Queen);
      SetAtKindMask(index, square, King);
    }

    /** After `set_at(i, s)`, every other square reads as before. */
    lemma SetAtKeepsSquare(index: int, square: Square, j: int)
      requires 0 <= index < 64 && 0 <= j < 64 && j != index && Decodable(j)
      ensures SetAt(index, square).Decodable(j)
      ensures SetAt(index, square).At(j) == At(j)
    {
      SetAtKeepsBits(index, square, j);
    }

    /** `set_at` keeps every square decodable. */
    lemma SetAtCoherent(index: int, square: Square)
      requires 0 <= index < 64 && ColorImpliesKind()
      ensures SetAt(index, square).ColorImpliesKind()
    {
    }

    lemma SetAtColorsDisjoint(index: int, square: Square)
      requires 0 <= index < 64 && whitePieces * blackPieces == {}
      ensures SetAt(index, square).whitePieces * SetAt(index, square).blackPieces == {}
    {
      SetAtColorMask(index, square, White);
      SetAtColorMask(index, square, Black);
    }

    lemma SetAtSameCover(index: int, square: Square)
      requires 0 <= index < 64 && ColorMask() == KindMask()
      ensures SetAt(index, square).ColorMask() == SetAt(index, square).KindMask()
    {
      SetAtColorMask(index, square, White);
      SetAtColorMask(index, square, Black);
      SetAtKindMask(index, square, Pawn);
      SetAtKindMask(index, square, Knight);
      SetAtKindMask(index, square, Bishop);
      SetAtKindMask(index, square, Rook);
      SetAtKindMask(index, square, Queen);
      SetAtKindMask(index, square, King);
    }

    lemma SetAtKindsDisjoint(index: int, square: Square)
      requires 0 <= index < 64 && KindsDisjoint()
      ensures SetAt(index, square).KindsDisjoint()
    {
      SetAtKindMask(index, square, Pawn);
      SetAtKindMask(index, square, Knight);
      SetAtKindMask(index, square, Bishop);
      SetAtKindMask(index, square, Rook);
      SetAtKindMask(index, square, Queen);
      SetAtKindMask(index, square, King);
    }

    /** `set_at` preserves the board invariant. */
    lemma SetAtValid(index: int, square: Square)
      requires 0 <= index < 64 && Valid()
      ensures SetAt(index, square).Valid()
    {
      SetAtColorsDisjoint(index, square);
      SetAtSameCover(index, square);
      SetAtKindsDisjoint(index, square);
    }

    // Castling rights, bits 0-3 of the status word.

    function CanWhiteCastleKingside(): bool
    {
      status & WhiteKingsideCastleMask != 0
    }

    function SetWhiteCastleKingside(canCastle: bool): Position
    {
      this.(status := SetFlag(status, WhiteKingsideCastleMask, canCastle))
    }

    function CanWhiteCastleQueenside(): bool
    {
      status & WhiteQueensideCastleMask != 0
    }

    function SetWhiteCastleQueenside(canCastle: bool): Position
    {
      this.(status := SetFlag(status, WhiteQueensideCastleMask, canCastle))
    }

    function CanBlackCastleKingside(): bool
    {
      status & BlackKingsideCastleMask != 0
    }

    function SetBlackCastleKingside(canCastle: bool): Position
    {
      this.(status := SetFlag(status, BlackKingsideCastleMask, canCastle))
    }

    function CanBlackCastleQueenside(): bool
    {
      status & BlackQueensideCastleMask != 0
    }

    function SetBlackCastleQueenside(canCastle: bool): Position
    {
      this.(status := SetFlag(status, BlackQueensideCastleMask, canCastle))
    }

    // Side to move, bit 4.

    function CurrentTurn(): Color
    {
      if status & CurrentTurnMask != 0 then White else Black
    }

    function NextTurn(): Position
    {
      this.(status := status ^ CurrentTurnMask)
    }

    // En-passant target, bits 5-10.

    function EnPassantTargetSquare(): Option<SquareIndex>
    {
      if status & EnPassantMask == EnPassantMask then None
      else Some(((status & EnPassantMask) >> 5) as bv8 as int)
    }

    function SetEnPassantTargetSquare(square: Option<SquareIndex>): Position
    {
      var cleared := status & !EnPassantMask;
      match square
      case None => this.(status := cleared | EnPassantMask)
      case Some(index) => this.(status := cleared | ((ToU8(index) as StatusWord) << 5))
    }

    /** Everything the status word holds, decoded by the getters. */
    function Fields(): StatusFields
    {
      StatusFields(CanWhiteCastleKingside(), CanWhiteCastleQueenside(), CanBlackCastleKingside(),
        CanBlackCastleQueenside(), CurrentTurn(), EnPassantTargetSquare())
    }
  }

  lemma Successor(b: bv8)
    requires b as int < 255
    ensures (b + 1) as int == b as int + 1
  {
  }

  /** A u8 as its eight bits (the source's `as u64` starts from these), built by counting. */
  function ToU8(n: int): (b: bv8)
    requires 0 <= n < 256
    ensures b as int == n
  {
    if n == 0 then 0
    else
      var b := ToU8(n - 1);
      Successor(b);
      b + 1
  }

  /** `mask` set when `on`, cleared otherwise: the body of every castling setter. */
  function SetFlag(s: StatusWord, mask: StatusWord, on: bool): StatusWord
  {
    if on then s | mask else s & !mask
  }

  lemma FlagReads(s: StatusWord, mask: StatusWord, on: bool)
    requires mask != 0
    ensures (SetFlag(s, mask, on) & mask != 0) == on
  {
  }

  lemma FlagKeeps(s: StatusWord, mask: StatusWord, on: bool, other: StatusWord)
    requires other & mask == 0
    ensures SetFlag(s, mask, on) & other == s & other
  {
  }

  /** The eight piece masks agree. */
  predicate SameMasks(p: Position, q: Position)
  {
    p.(status := 0) == q.(status := 0)
  }

  /** Positions with the same piece masks decode every square alike. */
  lemma SameMasksKeepSquares(p: Position, q: Position)
    requires SameMasks(p, q)
    ensures p.ColorImpliesKind() == q.ColorImpliesKind() && p.Valid() == q.Valid()
    ensures forall j :: 0 <= j < 64 && p.Decodable(j) ==> q.Decodable(j) && q.At(j) == p.At(j)
  {
    assert p.(status := 0).whitePieces == q.(status := 0).whitePieces;
  }

  /**
   * Each castling setter followed by its getter returns the value set, and no
   * other status field changes.
   */
  lemma SetWhiteCastleKingsideSpec(p: Position, b: bool)
    ensures p.SetWhiteCastleKingside(b).Fields() == p.Fields().(whiteKingside := b)
  {
    FlagReads(p.status, WhiteKingsideCastleMask, b);
    FlagKeeps(p.status, WhiteKingsideCastleMask, b, WhiteQueensideCastleMask);
    FlagKeeps(p.status, WhiteKingsideCastleMask, b, BlackKingsideCastleMask);
    FlagKeeps(p.status, WhiteKingsideCastleMask, b, BlackQueensideCastleMask);
    FlagKeeps(p.status, WhiteKingsideCastleMask, b, CurrentTurnMask);
    FlagKeeps(p.status, WhiteKingsideCastleMask, b, EnPassantMask);
  }

  /** Bit 0 is the only status bit the setter may change. */
  lemma SetWhiteCastleKingsideKeepsOtherBits(p: Position, b: bool)
    ensures p.SetWhiteCastleKingside(b).status & !WhiteKingsideCastleMask == p.status & !WhiteKingsideCastleMask
  {
    FlagKeeps(p.status, WhiteKingsideCastleMask, b, !WhiteKingsideCastleMask);
  }

  lemma SetWhiteCastleQueensideSpec(p: Position, b: bool)
    ensures p.SetWhiteCastleQueenside(b).Fields() == p.Fields().(whiteQueenside := b)
  {
    FlagReads(p.status, WhiteQueensideCastleMask, b);
    FlagKeeps(p.status, WhiteQueensideCastleMask, b, WhiteKingsideCastleMask);
    FlagKeeps(p.status, WhiteQueensideCastleMask, b, BlackKingsideCastleMask);
    FlagKeeps(p.status, WhiteQueensideCastleMask, b, BlackQueensideCastleMask);
    FlagKeeps(p.status, WhiteQueensideCastleMask, b, CurrentTurnMask);
    FlagKeeps(p.status, WhiteQueensideCastleMask, b, EnPassantMask);
  }

  /** Bit 1 is the only status bit the setter may change. */
  lemma SetWhiteCastleQueensideKeepsOtherBits(p: Position, b: bool)
    ensures p.SetWhiteCastleQueenside(b).status & !WhiteQueensideCastleMask == p.status & !WhiteQueensideCastleMask
  {
    FlagKeeps(p.status, WhiteQueensideCastleMask, b, !WhiteQueensideCastleMask);
  }

  lemma SetBlackCastleKingsideSpec(p: Position, b: bool)
    ensures p.SetBlackCastleKingside(b).Fields() == p.Fields().(blackKingside := b)
  {
    FlagReads(p.status, BlackKingsideCastleMask, b);
    FlagKeeps(p.status, BlackKingsideCastleMask, b, WhiteKingsideCastleMask);
    FlagKeeps(p.status, BlackKingsideCastleMask, b, WhiteQueensideCastleMask);
    FlagKeeps(p.status, BlackKingsideCastleMask, b, BlackQueensideCastleMask);
    FlagKeeps(p.status, BlackKingsideCastleMask, b, CurrentTurnMask);
    FlagKeeps(p.status, BlackKingsideCastleMask, b, EnPassantMask);
  }

  /** Bit 2 is the only status bit the setter may change. */
  lemma SetBlackCastleKingsideKeepsOtherBits(p: Position, b: bool)
    ensures p.SetBlackCastleKingside(b).status & !BlackKingsideCastleMask == p.status & !BlackKingsideCastleMask
  {
    FlagKeeps(p.status, BlackKingsideCastleMask, b, !BlackKingsideCastleMask);
  }

  lemma SetBlackCastleQueensideSpec(p: Position, b: bool)
    ensures p.SetBlackCastleQueenside(b).Fields() == p.Fields().(blackQueenside := b)
  {
    FlagReads(p.status, BlackQueensideCastleMask, b);
    FlagKeeps(p.status, BlackQueensideCastleMask, b, WhiteKingsideCastleMask);
    FlagKeeps(p.status, BlackQueensideCastleMask, b, WhiteQueensideCastleMask);
    FlagKeeps(p.status, BlackQueensideCastleMask, b, BlackKingsideCastleMask);
    FlagKeeps(p.status, BlackQueensideCastleMask, b, CurrentTurnMask);
    FlagKeeps(p.status, BlackQueensideCastleMask, b, EnPassantMask);
  }

  /** Bit 3 is the only status bit the setter may change. */
  lemma SetBlackCastleQueensideKeepsOtherBits(p: Position, b: bool)
    ensures p.SetBlackCastleQueenside(b).status & !BlackQueensideCastleMask == p.status & !BlackQueensideCastleMask
  {
    FlagKeeps(p.status, BlackQueensideCastleMask, b, !BlackQueensideCastleMask);
  }

  /** The castling setters touch only the status word. */
  lemma CastleSettersKeepMasks(p: Position, b: bool)
    ensures SameMasks(p, p.SetWhiteCastleKingside(b)) && SameMasks(p, p.SetWhiteCastleQueenside(b))
    ensures SameMasks(p, p.SetBlackCastleKingside(b)) && SameMasks(p, p.SetBlackCastleQueenside(b))
  {
  }

  lemma XorTwice(s: StatusWord, m: StatusWord)
    ensures (s ^ m) ^ m == s
  {
  }

  lemma XorFlips(s: StatusWord)
    ensures ((s ^ CurrentTurnMask) & CurrentTurnMask != 0) == (s & CurrentTurnMask == 0)
  {
  }

  lemma XorKeeps(s: StatusWord, o: StatusWord)
    requires o & CurrentTurnMask == 0
    ensures (s ^ CurrentTurnMask) & o == s & o
  {
  }

  /** `next_turn` flips the side to move and no other status field. */
  lemma NextTurnFlips(p: Position)
    ensures p.NextTurn().Fields() == p.Fields().(turn := Not(p.CurrentTurn()))
  {
    XorFlips(p.status);
    XorKeeps(p.status, WhiteKingsideCastleMask);
    XorKeeps(p.status, WhiteQueensideCastleMask);
    XorKeeps(p.status, BlackKingsideCastleMask);
    XorKeeps(p.status, BlackQueensideCastleMask);
    XorKeeps(p.status, EnPassantMask);
  }

  /** `next_turn` changes no status bit but bit 4. */
  lemma NextTurnKeepsOtherBits(p: Position)
    ensures p.NextTurn().status & !CurrentTurnMask == p.status & !CurrentTurnMask
  {
    XorKeeps(p.status, !CurrentTurnMask);
  }

  /** `next_turn` applied twice is the identity. */
  lemma NextTurnInvolution(p: Position)
    ensures p.NextTurn().NextTurn() == p
  {
    XorTwice(p.status, CurrentTurnMask);
  }

  /**
   * What `en_passant_target_square` reads after `set_en_passant_target_square(square)`:
   * the 6-bit field keeps `index % 64` (the bits of a u8 index from 64 on spill
   * into bits 11-12), and the value 63 is the "none" sentinel.
   */
  function EnPassantReadBack(square: Option<SquareIndex>): Option<SquareIndex>
  {
    match square
    case None => None
    case Some(index) => if index % 64 == 63 then None else Some(index % 64)
  }

  lemma LowBitsAgree(s: StatusWord, t: StatusWord, m: StatusWord)
    requires s & 0x1F == t & 0x1F && m & !0x1F == 0
    ensures s & m == t & m
  {
  }

  lemma SentinelWritten(s: StatusWord)
    ensures ((s & !EnPassantMask) | EnPassantMask) & EnPassantMask == EnPassantMask
  {
  }

  lemma SentinelOfIndex(s: StatusWord, b: bv8)
    ensures ((((s & !EnPassantMask) | ((b as StatusWord) << 5)) & EnPassantMask) == EnPassantMask) == (b & 63 == 63)
  {
  }

  lemma FieldOfIndex(s: StatusWord, b: bv8)
    ensures ((((s & !EnPassantMask) | ((b as StatusWord) << 5)) & EnPassantMask) >> 5) as bv8 == b & 63
  {
  }

  lemma LowSixBits(b: bv8)
    ensures (b & 63) as int == b as int % 64
  {
  }

  /** `en_passant_target_square` after `set_en_passant_target_square(square)`. */
  lemma SetEnPassantTarget(p: Position, square: Option<SquareIndex>)
    ensures p.SetEnPassantTargetSquare(square).EnPassantTargetSquare() == EnPassantReadBack(square)
  {
    match square
    case None =>
      SentinelWritten(p.status);
    case Some(index) =>
      var b := ToU8(index);
      SentinelOfIndex(p.status, b);
      FieldOfIndex(p.status, b);
      LowSixBits(b);
  }

  /** Setting the en-passant target changes no other status field. */
  lemma SetEnPassantReads(p: Position, square: Option<SquareIndex>)
    ensures p.SetEnPassantTargetSquare(square).Fields() == p.Fields().(enPassant := EnPassantReadBack(square))
  {
    var q := p.SetEnPassantTargetSquare(square);
    SetEnPassantTarget(p, square);
    SetEnPassantKeepsLowBits(p, square);
    LowBitsAgree(q.status, p.status, WhiteKingsideCastleMask);
    LowBitsAgree(q.status, p.status, WhiteQueensideCastleMask);
    LowBitsAgree(q.status, p.status, BlackKingsideCastleMask);
    LowBitsAgree(q.status, p.status, BlackQueensideCastleMask);
    LowBitsAgree(q.status, p.status, CurrentTurnMask);
  }

  lemma SetEnPassantKeepsLowBits(p: Position, square: Option<SquareIndex>)
    ensures p.SetEnPassantTargetSquare(square).status & 0x1F == p.status & 0x1F
  {
  }

  lemma SetEnPassantKeepsHighBits(p: Position, square: Option<SquareIndex>)
    requires square.None? || square.value < 64
    ensures p.SetEnPassantTargetSquare(square).status & !EnPassantMask == p.status & !EnPassantMask
  {
  }

  lemma SetEnPassantKeepsMasks(p: Position, square: Option<SquareIndex>)
    ensures SameMasks(p, p.SetEnPassantTargetSquare(square))
  {
  }

  // ---------------------------------------------------------------------------
  // The starting position of `Default`.
  // ---------------------------------------------------------------------------

  const DefaultPosition: Position := Position(
    set i | 0 <= i < 16,                   // 0x000000000000FFFF
    set i | 48 <= i < 64,                  // 0xFFFF000000000000
    (set i | 8 <= i < 16) + (set i | 48 <= i < 56),  // 0x00FF00000000FF00
    {1, 6, 57, 62},                        // 0x4200000000000042
    {2, 5, 58, 61},                        // 0x2400000000000024
    {0, 7, 56, 63},                        // 0x8100000000000081
    {3, 59},                               // 0x0800000000000008
    {4, 60},                               // 0x1000000000000010
    0x7FF)

  /** The back rank of `Default`, file by file from bit 0: the king is on bit 4. */
  const DefaultBackRank: seq<PieceKind> := [Rook, Knight, Bishop, Queen, King, Bishop, Knight, Rook]

  /** The square contents `Default` encodes: White on bits 0-15, Black on bits 48-63. */
  function DefaultLayout(k: int): Square
    requires 0 <= k < 64
  {
    if k < 8 then Occupied(Piece(DefaultBackRank[k], White))
    else if k < 16 then Occupied(WhitePawn)
    else if k < 48 then Empty
    else if k < 56 then Occupied(BlackPawn)
    else Occupied(Piece(DefaultBackRank[k - 56], Black))
  }

  /** `Default` satisfies the board invariant. */
  lemma DefaultValid()
    ensures DefaultPosition.Valid()
  {
    var p := DefaultPosition;
    assert p.whitePieces * p.blackPieces == {} by {
      forall i | i in p.whitePieces ensures i !in p.blackPieces { }
    }
    assert p.ColorMask() == p.KindMask() by {
      forall i | 0 <= i < 64 ensures i in p.ColorMask() <==> i in p.KindMask() {
        DefaultCover(i);
      }
    }
    DefaultKindsDisjoint();
  }

  lemma DefaultCover(i: int)
    requires 0 <= i < 64
    ensures i in DefaultPosition.ColorMask() <==> i in DefaultPosition.KindMask()
  {
    var p := DefaultPosition;
    if 16 <= i < 48 {
      assert i !in p.whitePieces && i !in p.blackPieces;
      assert i !in p.pawns && i !in p.knights && i !in p.bishops;
      assert i !in p.rooks && i !in p.queens && i !in p.kings;
    } else if 8 <= i < 16 || 48 <= i < 56 {
      assert i in p.pawns;
    } else if i in {0, 7, 56, 63} {
      assert i in p.rooks;
    } else if i in {1, 6, 57, 62} {
      assert i in p.knights;
    } else if i in {2, 5, 58, 61} {
      assert i in p.bishops;
    } else if i in {3, 59} {
      assert i in p.queens;
    } else {
      assert i in p.kings;
    }
  }

  lemma DefaultKindsDisjoint()
    ensures DefaultPosition.KindsDisjoint()
  {
    var p := DefaultPosition;
    forall i | i in p.pawns ensures i !in p.knights + p.bishops + p.rooks + p.queens + p.kings {
      assert 8 <= i < 16 || 48 <= i < 56;
    }
    forall i | i in p.knights ensures i !in p.bishops + p.rooks + p.queens + p.kings {
      assert i in {1, 6, 57, 62};
    }
    forall i | i in p.bishops ensures i !in p.rooks + p.queens + p.kings {
      assert i in {2, 5, 58, 61};
    }
    forall i | i in p.rooks ensures i !in p.queens + p.kings {
      assert i in {0, 7, 56, 63};
    }
    forall i | i in p.queens ensures i !in p.kings {
      assert i in {3, 59};
    }
  }

  /** `Default` holds all four castling rights, has White to move and no en-passant target. */
  lemma DefaultStatus()
    ensures DefaultPosition.Fields() == StatusFields(true, true, true, true, White, None)
  {
  }

  /** Every square of `Default` reads as `DefaultLayout`. */
  lemma DefaultSquares()
    ensures forall k :: 0 <= k < 64 ==> DefaultPosition.Decodable(k) && DefaultPosition.At(k) == DefaultLayout(k)
  {
    forall k | 0 <= k < 64
      ensures DefaultPosition.Decodable(k) && DefaultPosition.At(k) == DefaultLayout(k)
    {
      DefaultValid();
      DefaultSquare(k);
    }
  }

  lemma DefaultSquare(k: int)
    requires 0 <= k < 64
    ensures DefaultPosition.Decodable(k) && DefaultPosition.At(k) == DefaultLayout(k)
  {
    DefaultValid();
    if k < 8 {
      assert k in DefaultPosition.whitePieces;
    } else if k < 16 {
      assert k in DefaultPosition.pawns;
    } else if k < 48 {
      assert k !in DefaultPosition.ColorMask();
    } else if k < 56 {
      assert k in DefaultPosition.pawns;
    } else {
      assert k in DefaultPosition.blackPieces;
    }
  }

  // ---------------------------------------------------------------------------
  // The board object that move application updates in place.
  // ---------------------------------------------------------------------------

  class ChessBoard {
    var whitePieces: Bitboard
    var blackPieces: Bitboard
    var pawns: Bitboard
    var knights: Bitboard
    var bishops: Bitboard
    var rooks: Bitboard
    var queens: Bitboard
    var kings: Bitboard
    var status: StatusWord

    /** The board's value; every method below is specified by what it does to it. */
    function State(): Position
      reads this
    {
      Position(whitePieces, blackPieces, pawns, knights, bishops, rooks, queens, kings, status)
    }

    /** A copy of `p` (the source's `clone()`; `Default::default()` is `FromPosition(DefaultPosition)`). */
    constructor FromPosition(p: Position)
      ensures State() == p
    {
      whitePieces, blackPieces := p.whitePieces, p.blackPieces;
      pawns, knights, bishops := p.pawns, p.knights, p.bishops;
      rooks, queens, kings := p.rooks, p.queens, p.kings;
      status := p.status;
    }

    method SetAt(index: int, square: Square)
      requires 0 <= index < 64
      modifies this
      ensures State() == old(State()).SetAt(index, square)
    {
      var squareMask := SquareMask(index);
      whitePieces := whitePieces - squareMask;
      blackPieces := blackPieces - squareMask;
      pawns := pawns - squareMask;
      knights := knights - squareMask;
      bishops := bishops - squareMask;
      rooks := rooks - squareMask;
      queens := queens - squareMask;
      kings := kings - squareMask;
      match square {
        case Occupied(piece) =>
          match piece.color {
            case White => whitePieces := whitePieces + squareMask;
            case Black => blackPieces := blackPieces + squareMask;
          }
          match piece.kind {
            case Pawn => pawns := pawns + squareMask;
            case Rook => rooks := rooks + squareMask;
            case Knight => knights := knights + squareMask;
            case Bishop => bishops := bishops + squareMask;
            case Queen => queens := queens + squareMask;
            case King => kings := kings + squareMask;
          }
        case Empty =>
      }
    }

    method SetWhiteCastleKingside(canCastle: bool)
      modifies this
      ensures State() == old(State()).SetWhiteCastleKingside(canCastle)
    {
      status := SetFlag(status, WhiteKingsideCastleMask, canCastle);
    }

    method SetWhiteCastleQueenside(canCastle: bool)
      modifies this
      ensures State() == old(State()).SetWhiteCastleQueenside(canCastle)
    {
      status := SetFlag(status, WhiteQueensideCastleMask, canCastle);
    }

    method SetBlackCastleKingside(canCastle: bool)
      modifies this
      ensures State() == old(State()).SetBlackCastleKingside(canCastle)
    {
      status := SetFlag(status, BlackKingsideCastleMask, canCastle);
    }

    method SetBlackCastleQueenside(canCastle: bool)
      modifies this
      ensures State() == old(State()).SetBlackCastleQueenside(canCastle)
    {
      status := SetFlag(status, BlackQueensideCastleMask, canCastle);
    }

    method NextTurn()
      modifies this
      ensures State() == old(State()).NextTurn()
    {
      var s := status ^ CurrentTurnMask;
      status := s;
    }

    method SetEnPassantTargetSquare(square: Option<SquareIndex>)
      modifies this
      ensures State() == old(State()).SetEnPassantTargetSquare(square)
    {
      var s := status & !EnPassantMask;
      match square {
        case None =>
          s := s | EnPassantMask;
        case Some(index) =>
          s := s | ((ToU8(index) as StatusWord) << 5);
      }
      status := s;
    }
  }
}
