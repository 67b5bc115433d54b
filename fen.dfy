/**
 * The FEN decoder of src/chess_board.rs (`ChessBoard::from_str`): six
 * space-separated fields, eight '/'-separated ranks from the top, digits
 * 1-8 for empty runs and the letters PNBRQK / pnbrqk for pieces, the side
 * to move, the castling letters and the en-passant square. The decoder puts
 * rank i, column j of the text on bit (7 - i) * 8 + 7 - j, so column 0 of
 * the text (file a) lands on bit 7 of its rank. A panic is an `Err`.
 */
module Fen {
  import opened Wrappers
  import opened Pieces
  import opened Board

  // ---------------------------------------------------------------------------
  // `str::split` on one separator character.
  // ---------------------------------------------------------------------------

  /** The pieces of `s` between occurrences of `sep`; empty pieces are kept and there is always one. */
  function Split(s: string, sep: char): (r: seq<string>)
    ensures |r| >= 1
  {
    if |s| == 0 then [""]
    else
      var rest := Split(s[1..], sep);
      if s[0] == sep then [""] + rest else [[s[0]] + rest[0]] + rest[1..]
  }

  function Join(parts: seq<string>, sep: char): string
  {
    if |parts| == 0 then ""
    else if |parts| == 1 then parts[0]
    else parts[0] + [sep] + Join(parts[1..], sep)
  }

  /** Splitting loses nothing: joining the pieces back gives the text, and no piece holds the separator. */
  lemma {:induction false} SplitJoin(s: string, sep: char)
    ensures Join(Split(s, sep), sep) == s
    ensures forall t :: 0 <= t < |Split(s, sep)| ==> sep !in Split(s, sep)[t]
  {
    if |s| > 0 {
      var rest := Split(s[1..], sep);
      SplitJoin(s[1..], sep);
      if s[0] == sep {
        assert Split(s, sep) == [""] + rest;
        assert Join([""] + rest, sep) == "" + [sep] + Join(rest, sep);
      } else {
        var r := Split(s, sep);
        assert r == [[s[0]] + rest[0]] + rest[1..];
        assert r[1..] == rest[1..];
        if |rest| == 1 {
          assert Join(r, sep) == [s[0]] + rest[0];
        } else {
          assert Join(rest, sep) == rest[0] + [sep] + Join(rest[1..], sep);
          assert Join(r, sep) == ([s[0]] + rest[0]) + [sep] + Join(rest[1..], sep);
        }
        forall t | 0 <= t < |r|
          ensures sep !in r[t]
        {
          if t > 0 {
            assert r[t] == rest[t];
          }
        }
      }
    }
  }

  // ---------------------------------------------------------------------------
  // The piece placement field.
  // ---------------------------------------------------------------------------

  /** The piece a FEN letter stands for. */
  function PieceOfChar(c: char): Option<Piece>
  {
    match c
    case 'P' => Some(Piece(Pawn, White))
    case 'N' => Some(Piece(Knight, White))
    case 'B' => Some(Piece(Bishop, White))
    case 'R' => Some(Piece(Rook, White))
    case 'Q' => Some(Piece(Queen, White))
    case 'K' => Some(Piece(King, White))
    case 'p' => Some(Piece(Pawn, Black))
    case 'n' => Some(Piece(Knight, Black))
    case 'b' => Some(Piece(Bishop, Black))
    case 'r' => Some(Piece(Rook, Black))
    case 'q' => Some(Piece(Queen, Black))
    case 'k' => Some(Piece(King, Black))
    case _ => None
  }

  predicate IsRunDigit(c: char)
  {
    '1' <= c <= '8'
  }

  /** No pieces and a zero status word: the decoder's starting values. */
  const EmptyBoard: Position := Position({}, {}, {}, {}, {}, {}, {}, {}, 0)

  /** The masks after `|= square_mask` on the piece's colour mask and kind mask. */
  function Place(acc: Position, piece: Piece, bit: int): (r: Position)
    requires 0 <= bit < 64
    ensures r.PiecesOf(piece.color) == acc.PiecesOf(piece.color) + {bit}
    ensures r.PiecesOf(Not(piece.color)) == acc.PiecesOf(Not(piece.color))
    ensures r.PiecesOfKind(piece.kind) == acc.PiecesOfKind(piece.kind) + {bit}
    ensures forall k: PieceKind :: k != piece.kind ==> r.PiecesOfKind(k) == acc.PiecesOfKind(k)
    ensures r.status == acc.status
  {
    var m := SquareMask(bit);
    var a := match piece.color
      case White => acc.(whitePieces := acc.whitePieces + m)
      case Black => acc.(blackPieces := acc.blackPieces + m);
    match piece.kind
    case Pawn => a.(pawns := a.pawns + m)
    case Knight => a.(knights := a.knights + m)
    case Bishop => a.(bishops := a.bishops + m)
    case Rook => a.(rooks := a.rooks + m)
    case Queen => a.(queens := a.queens + m)
    case King => a.(kings := a.kings + m)
  }

  /** How many columns a character advances: its value for a run digit, one for a piece. */
  function CharWidth(c: char): int
  {
    if IsRunDigit(c) then c as int - '0' as int else 1
  }

  function Width(s: string): int
  {
    if |s| == 0 then 0 else CharWidth(s[0]) + Width(s[1..])
  }

  /**
   * One character of rank `i` at column `j`: a run digit skips columns, a
   * piece letter is placed on bit (7 - i) * 8 + 7 - j, which underflows in
   * usize once j passes the rank's base; any other character is refused.
   */
  function RankStep(acc: Position, i: int, c: char, j: int): (r: Result<(Position, int)>)
    requires 0 <= i < 8 && 0 <= j
    ensures r.Ok? ==> r.value.1 == j + CharWidth(c) && r.value.0.status == acc.status
    ensures r.Ok? <==> IsRunDigit(c) || (PieceOfChar(c).Some? && j <= (7 - i) * 8 + 7)
  {
    if IsRunDigit(c) then Ok((acc, j + (c as int - '0' as int)))
    else
      match PieceOfChar(c)
      case None => Err("Invalid FEN character, expected a piece representation (PNBRQKpnbrqk)")
      case Some(piece) =>
        var base := (7 - i) * 8 + 7;
        if j > base then Err("attempt to subtract with overflow")
        else Ok((Place(acc, piece, base - j), j + 1))
  }

  /** The rest `row` of rank `i`, from column `j`. */
  function ParseRank(acc: Position, i: int, row: string, j: int): Result<Position>
    requires 0 <= i < 8 && 0 <= j
    decreases |row|
  {
    if |row| == 0 then Ok(acc)
    else
      match RankStep(acc, i, row[0], j)
      case Err(e) => Err(e)
      case Ok((next, column)) => ParseRank(next, i, row[1..], column)
  }

  /** The ranks from `i` on. */
  function PlacePieces(rows: seq<string>, i: int, acc: Position): Result<Position>
    requires 0 <= i <= |rows| <= 8
    decreases |rows| - i
  {
    if i == |rows| then Ok(acc)
    else
      match ParseRank(acc, i, rows[i], 0)
      case Err(e) => Err(e)
      case Ok(next) => PlacePieces(rows, i + 1, next)
  }

  /** A piece's bit that is already in its colour and kind masks. */
  predicate Holds(p: Position, bit: int, piece: Piece)
  {
    bit in p.PiecesOf(piece.color) && bit in p.PiecesOfKind(piece.kind)
  }

  /** A step places the letter's piece on its bit and removes nothing. */
  lemma StepPlaces(acc: Position, i: int, c: char, j: int, bit: int, piece: Piece)
    requires 0 <= i < 8 && 0 <= j && RankStep(acc, i, c, j).Ok?
    ensures Holds(acc, bit, piece) ==> Holds(RankStep(acc, i, c, j).value.0, bit, piece)
    ensures PieceOfChar(c) == Some(piece) ==>
      0 <= (7 - i) * 8 + 7 - j < 64 && Holds(RankStep(acc, i, c, j).value.0, (7 - i) * 8 + 7 - j, piece)
  {
    if !IsRunDigit(c) {
      var placed := PieceOfChar(c).value;
      var r := Place(acc, placed, (7 - i) * 8 + 7 - j);
      if Holds(acc, bit, piece) {
        assert bit in r.PiecesOf(piece.color) by {
          if piece.color != placed.color {
            assert piece.color == Not(placed.color);
          }
        }
        assert bit in r.PiecesOfKind(piece.kind) by {
          if piece.kind != placed.kind {
            assert r.PiecesOfKind(piece.kind) == acc.PiecesOfKind(piece.kind);
          }
        }
      }
    }
  }

  /** Decoding the rest of a rank removes no piece already placed and leaves the status word alone. */
  lemma {:induction false} ParseRankKeeps(acc: Position, i: int, row: string, j: int, bit: int, piece: Piece)
    requires 0 <= i < 8 && 0 <= j && ParseRank(acc, i, row, j).Ok?
    ensures Holds(acc, bit, piece) ==> Holds(ParseRank(acc, i, row, j).value, bit, piece)
    ensures ParseRank(acc, i, row, j).value.status == acc.status
    decreases |row|
  {
    if |row| > 0 {
      var step := RankStep(acc, i, row[0], j).value;
      StepPlaces(acc, i, row[0], j, bit, piece);
      ParseRankKeeps(step.0, i, row[1..], step.1, bit, piece);
    }
  }

  /** Decoding the remaining ranks removes no piece already placed and leaves the status word alone. */
  lemma {:induction false} PlacePiecesKeeps(rows: seq<string>, i: int, acc: Position, bit: int, piece: Piece)
    requires 0 <= i <= |rows| <= 8 && PlacePieces(rows, i, acc).Ok?
    ensures Holds(acc, bit, piece) ==> Holds(PlacePieces(rows, i, acc).value, bit, piece)
    ensures PlacePieces(rows, i, acc).value.status == acc.status
    decreases |rows| - i
  {
    if i < |rows| {
      ParseRankKeeps(acc, i, rows[i], 0, bit, piece);
      PlacePiecesKeeps(rows, i + 1, ParseRank(acc, i, rows[i], 0).value, bit, piece);
    }
  }

  /**
   * A piece letter at position k of a rank lands on bit (7 - i) * 8 + 7 - j,
   * where j is the column its run digits and earlier letters reach.
   */
  lemma {:induction false} RankPlaces(acc: Position, i: int, row: string, j: int, k: int, piece: Piece)
    requires 0 <= i < 8 && 0 <= j && ParseRank(acc, i, row, j).Ok?
    requires 0 <= k < |row| && PieceOfChar(row[k]) == Some(piece)
    ensures var bit := (7 - i) * 8 + 7 - (j + Width(row[..k]));
      0 <= bit < 64 && Holds(ParseRank(acc, i, row, j).value, bit, piece)
    decreases |row|
  {
    var step := RankStep(acc, i, row[0], j).value;
    if k == 0 {
      assert row[..0] == "";
      var bit := (7 - i) * 8 + 7 - j;
      StepPlaces(acc, i, row[0], j, bit, piece);
      ParseRankKeeps(step.0, i, row[1..], step.1, bit, piece);
    } else {
      assert row[..k][1..] == row[1..][..k - 1];
      assert row[1..][k - 1] == row[k];
      assert Width(row[..k]) == CharWidth(row[0]) + Width(row[1..][..k - 1]);
      RankPlaces(step.0, i, row[1..], step.1, k - 1, piece);
    }
  }

  /** The ranks from `i0` on place each of their piece letters. */
  lemma {:induction false} PlacePiecesPlaces(rows: seq<string>, i0: int, acc: Position, i: int, k: int, piece: Piece)
    requires 0 <= i0 <= i < |rows| <= 8 && PlacePieces(rows, i0, acc).Ok?
    requires 0 <= k < |rows[i]| && PieceOfChar(rows[i][k]) == Some(piece)
    ensures var bit := (7 - i) * 8 + 7 - Width(rows[i][..k]);
      0 <= bit < 64 && Holds(PlacePieces(rows, i0, acc).value, bit, piece)
    decreases i - i0
  {
    if i0 == i {
      RankPiecePlaced(rows, i, acc, k, piece);
    } else {
      PlacePiecesPlaces(rows, i0 + 1, ParseRank(acc, i0, rows[i0], 0).value, i, k, piece);
    }
  }

  /** The rank decoded first places its letters, and the later ranks keep them. */
  lemma RankPiecePlaced(rows: seq<string>, i: int, acc: Position, k: int, piece: Piece)
    requires 0 <= i < |rows| <= 8 && PlacePieces(rows, i, acc).Ok?
    requires 0 <= k < |rows[i]| && PieceOfChar(rows[i][k]) == Some(piece)
    ensures var bit := (7 - i) * 8 + 7 - Width(rows[i][..k]);
      0 <= bit < 64 && Holds(PlacePieces(rows, i, acc).value, bit, piece)
  {
    var bit := (7 - i) * 8 + 7 - Width(rows[i][..k]);
    var next := ParseRank(acc, i, rows[i], 0).value;
    RankPlaces(acc, i, rows[i], 0, k, piece);
    assert 0 <= bit < 64 && Holds(next, bit, piece);
    PlacePiecesKeeps(rows, i + 1, next, bit, piece);
    assert PlacePieces(rows, i, acc) == PlacePieces(rows, i + 1, next);
  }

  lemma {:induction false} WidthPositive(s: string)
    ensures Width(s) >= 0
    decreases |s|
  {
    if |s| > 0 {
      WidthPositive(s[1..]);
    }
  }

  /** Every character of `row` is a run digit or a piece letter that, starting from column `j`, stays on rank `i`. */
  predicate Fits(i: int, row: string, j: int)
  {
    forall k :: 0 <= k < |row| ==>
      IsRunDigit(row[k]) || (PieceOfChar(row[k]).Some? && j + Width(row[..k]) <= (7 - i) * 8 + 7)
  }

  /** A character of the rest of a rank, and the width of its prefix, seen from the whole rank. */
  lemma PrefixStep(row: string, k: int)
    requires 0 < k < |row|
    ensures row[k] == row[1..][k - 1] && Width(row[..k]) == CharWidth(row[0]) + Width(row[1..][..k - 1])
  {
    assert row[..k][1..] == row[1..][..k - 1];
  }

  /** A rank fits when its first character does and the rest fits from the column after it. */
  lemma FitsStep(i: int, row: string, j: int)
    requires 0 < |row|
    ensures Fits(i, row, j) <==>
      && (IsRunDigit(row[0]) || (PieceOfChar(row[0]).Some? && j <= (7 - i) * 8 + 7))
      && Fits(i, row[1..], j + CharWidth(row[0]))
  {
    assert row[..0] == "";
    var j' := j + CharWidth(row[0]);
    if Fits(i, row, j) {
      forall k | 0 <= k < |row[1..]|
        ensures IsRunDigit(row[1..][k]) || (PieceOfChar(row[1..][k]).Some? && j' + Width(row[1..][..k]) <= (7 - i) * 8 + 7)
      {
        PrefixStep(row, k + 1);
      }
    }
    if Fits(i, row[1..], j') {
      forall k | 0 < k < |row|
        ensures IsRunDigit(row[k]) || (PieceOfChar(row[k]).Some? && j + Width(row[..k]) <= (7 - i) * 8 + 7)
      {
        PrefixStep(row, k);
      }
    }
  }

  /**
   * A rank decodes exactly when every character is a run digit or a piece
   * letter and no piece letter sits past the rank's last bit.
   */
  lemma {:induction false} ParseRankIff(acc: Position, i: int, row: string, j: int)
    requires 0 <= i < 8 && 0 <= j
    ensures ParseRank(acc, i, row, j).Ok? <==> Fits(i, row, j)
    decreases |row|
  {
    if |row| > 0 {
      FitsStep(i, row, j);
      var step := RankStep(acc, i, row[0], j);
      if step.Ok? {
        ParseRankIff(step.value.0, i, row[1..], step.value.1);
      }
    }
  }

  /** A rank of run digits and piece letters at most eight columns wide always decodes. */
  lemma WellFormedRankParses(acc: Position, i: int, row: string)
    requires 0 <= i < 8
    requires forall t :: 0 <= t < |row| ==> IsRunDigit(row[t]) || PieceOfChar(row[t]).Some?
    requires Width(row) <= 8
    ensures ParseRank(acc, i, row, 0).Ok?
  {
    ParseRankIff(acc, i, row, 0);
    forall k | 0 <= k < |row|
      ensures Width(row[..k]) <= 7
    {
      WidthSplit(row, k);
      WidthPositive(row[k + 1..]);
    }
  }

  lemma {:induction false} WidthSplit(s: string, k: int)
    requires 0 <= k < |s|
    ensures Width(s) == Width(s[..k]) + CharWidth(s[k]) + Width(s[k + 1..])
    decreases k
  {
    if k == 0 {
      assert s[..0] == "";
      assert s[1..] == s[k + 1..];
    } else {
      WidthSplit(s[1..], k - 1);
      assert s[1..][..k - 1] == s[..k][1..];
      assert s[1..][k - 1] == s[k];
      assert s[1..][k..] == s[k + 1..];
    }
  }

  // ---------------------------------------------------------------------------
  // The en-passant field and the status word.
  // ---------------------------------------------------------------------------

  /**
   * The en-passant field: None for "-", otherwise the index row * 8 + col
   * with col = 'h' - byte 0 and row = byte 1 - '1', computed in that
   * order. A missing byte, a u8 subtraction that underflows, a column past
   * 7 or a row other than 2 and 5 make the decoder panic. The text is taken as
   * characters: on a non-ASCII character the byte-wise reading fails too.
   */
  function EnPassantField(f: string): (r: Result<Option<int>>)
    ensures r.Ok? && r.value.Some? ==> 0 <= r.value.value < 48
  {
    if f == "-" then Ok(None)
    else if |f| == 0 then Err("index out of bounds")
    else if f[0] as int > 'h' as int then Err("attempt to subtract with overflow")
    else if |f| < 2 then Err("index out of bounds")
    else if (f[1] as int) < '1' as int then Err("attempt to subtract with overflow")
    else
      var col := 'h' as int - f[0] as int;
      var row := f[1] as int - '1' as int;
      if col > 7 || (row != 2 && row != 5) then Err("Invalid FEN, en passant target square is not valid")
      else Ok(Some(row * 8 + col))
  }

  /**
   * The field is accepted exactly when it is "-" or a file letter a-h
   * followed by rank 3 or 6 (and anything else); the index counts files
   * from h.
   */
  lemma EnPassantFieldIff(f: string)
    ensures EnPassantField(f).Ok? <==>
      f == "-" || (|f| >= 2 && 'a' <= f[0] <= 'h' && (f[1] == '3' || f[1] == '6'))
    ensures EnPassantField(f).Ok? && f != "-" ==>
      EnPassantField(f) == Ok(Some((f[1] as int - '1' as int) * 8 + ('h' as int - f[0] as int)))
    ensures EnPassantField(f).Ok? && f != "-" ==>
      var ep := EnPassantField(f).value.value; (16 <= ep < 24 || 40 <= ep < 48)
  {
  }

  /** `if on { s |= mask }`. */
  function OrIf(s: StatusWord, mask: StatusWord, on: bool): StatusWord
  {
    if on then s | mask else s
  }

  /** Bits 0-4 in the order the decoder sets them: side to move, Q, K, q, k. */
  function LowStatus(white: bool, wk: bool, wq: bool, bk: bool, bq: bool): StatusWord
  {
    var s1 := OrIf(0, CurrentTurnMask, white);
    var s2 := OrIf(s1, WhiteQueensideCastleMask, wq);
    var s3 := OrIf(s2, WhiteKingsideCastleMask, wk);
    var s4 := OrIf(s3, BlackQueensideCastleMask, bq);
    OrIf(s4, BlackKingsideCastleMask, bk)
  }

  /** `status |= (index as u64) << 5`: the en-passant index into bits 5 and up. */
  function OrEnPassant(s: StatusWord, index: int): StatusWord
    requires 0 <= index < 256
  {
    s | ((ToU8(index) as StatusWord) << 5)
  }

  /** The status word: the low flags, then the en-passant index. */
  function FenStatus(white: bool, wk: bool, wq: bool, bk: bool, bq: bool, ep: Option<int>): StatusWord
    requires ep.None? || 0 <= ep.value < 256
  {
    var low := LowStatus(white, wk, wq, bk, bq);
    match ep
    case None => low
    case Some(index) => OrEnPassant(low, index)
  }

  /** The whole decoder. */
  function ParseFen(fen: string): Result<Position>
  {
    var parts := Split(fen, ' ');
    if |parts| != 6 then Err("Invalid FEN, expected 6 parts")
    else
      var rows := Split(parts[0], '/');
      if |rows| != 8 then Err("Invalid FEN, expected 8 rows")
      else
        match PlacePieces(rows, 0, EmptyBoard)
        case Err(e) => Err(e)
        case Ok(board) =>
          match StatusOf(parts[1], parts[2], parts[3])
          case Err(e) => Err(e)
          case Ok(status) => Ok(board.(status := status))
  }

  /** The side, castling and en-passant fields as a status word. */
  function StatusOf(side: string, castling: string, field: string): Result<StatusWord>
  {
    if side != "w" && side != "b" then Err("Invalid FEN, expected 'w' or 'b' for side to move")
    else
      match EnPassantField(field)
      case Err(e) => Err(e)
      case Ok(ep) =>
        Ok(FenStatus(side == "w", 'K' in castling, 'Q' in castling, 'k' in castling, 'q' in castling, ep))
  }

  // ---------------------------------------------------------------------------
  // What the decoded status word reads as.
  // ---------------------------------------------------------------------------

  lemma LowStatusBits(white: bool, wk: bool, wq: bool, bk: bool, bq: bool)
    ensures var s := LowStatus(white, wk, wq, bk, bq);
      && s & !0x1F == 0
      && (s & WhiteKingsideCastleMask != 0) == wk
      && (s & WhiteQueensideCastleMask != 0) == wq
      && (s & BlackKingsideCastleMask != 0) == bk
      && (s & BlackQueensideCastleMask != 0) == bq
      && (s & CurrentTurnMask != 0) == white
  {
  }

  lemma OrEnPassantLow(low: StatusWord, b: bv8)
    requires low & !0x1F == 0
    ensures (low | ((b as StatusWord) << 5)) & 0x1F == low & 0x1F
  {
  }

  lemma OrEnPassantSentinel(low: StatusWord, b: bv8)
    requires low & !0x1F == 0
    ensures (((low | ((b as StatusWord) << 5)) & EnPassantMask) == EnPassantMask) == (b & 63 == 63)
  {
  }

  lemma OrEnPassantField(low: StatusWord, b: bv8)
    requires low & !0x1F == 0
    ensures (((low | ((b as StatusWord) << 5)) & EnPassantMask) >> 5) as bv8 == b & 63
  {
  }

  lemma LowStatusNoTarget(low: StatusWord)
    requires low & !0x1F == 0
    ensures low & EnPassantMask != EnPassantMask && ((low & EnPassantMask) >> 5) as bv8 == 0
  {
  }

  /**
   * The decoded status reads back as written: the castling letters, the
   * side to move, and the en-passant index, with "-" reading as Some(0)
   * because the field's bits stay zero.
   */
  lemma FenStatusFields(p: Position, white: bool, wk: bool, wq: bool, bk: bool, bq: bool, ep: Option<int>)
    requires ep.None? || 0 <= ep.value < 63
    requires p.status == FenStatus(white, wk, wq, bk, bq, ep)
    ensures p.Fields() == StatusFields(wk, wq, bk, bq, if white then White else Black,
      Some(if ep.None? then 0 else ep.value))
  {
    var low := LowStatus(white, wk, wq, bk, bq);
    LowStatusBits(white, wk, wq, bk, bq);
    match ep {
      case None =>
        LowStatusNoTarget(low);
      case Some(index) =>
        var b := ToU8(index);
        OrEnPassantLow(low, b);
        OrEnPassantSentinel(low, b);
        OrEnPassantField(low, b);
        LowSixBits(b);
        LowBitsAgree(p.status, low, WhiteKingsideCastleMask);
        LowBitsAgree(p.status, low, WhiteQueensideCastleMask);
        LowBitsAgree(p.status, low, BlackKingsideCastleMask);
        LowBitsAgree(p.status, low, BlackQueensideCastleMask);
        LowBitsAgree(p.status, low, CurrentTurnMask);
    }
  }

  // ---------------------------------------------------------------------------
  // What a decoded FEN holds.
  // ---------------------------------------------------------------------------

  /** Decoding succeeds only on six fields, eight ranks of digits and piece letters, side w or b and a valid en-passant field. */
  lemma ParseFenAccepts(fen: string)
    requires ParseFen(fen).Ok?
    ensures var parts := Split(fen, ' ');
      && |parts| == 6
      && |Split(parts[0], '/')| == 8
      && (forall i, t :: 0 <= i < 8 && 0 <= t < |Split(parts[0], '/')[i]| ==>
            IsRunDigit(Split(parts[0], '/')[i][t]) || PieceOfChar(Split(parts[0], '/')[i][t]).Some?)
      && (parts[1] == "w" || parts[1] == "b")
      && (parts[3] == "-" || (|parts[3]| >= 2 && 'a' <= parts[3][0] <= 'h' && (parts[3][1] == '3' || parts[3][1] == '6')))
  {
    var parts := Split(fen, ' ');
    var rows := Split(parts[0], '/');
    EnPassantFieldIff(parts[3]);
    forall i | 0 <= i < 8
      ensures forall t :: 0 <= t < |rows[i]| ==> IsRunDigit(rows[i][t]) || PieceOfChar(rows[i][t]).Some?
    {
      RanksParse(rows, 0, EmptyBoard, i);
    }
  }

  /** Every rank from `i0` on of a decoded placement field is made of digits and piece letters. */
  lemma {:induction false} RanksParse(rows: seq<string>, i0: int, acc: Position, i: int)
    requires 0 <= i0 <= i < |rows| <= 8 && PlacePieces(rows, i0, acc).Ok?
    ensures forall t :: 0 <= t < |rows[i]| ==> IsRunDigit(rows[i][t]) || PieceOfChar(rows[i][t]).Some?
    decreases i - i0
  {
    if i0 == i {
      ParseRankIff(acc, i, rows[i], 0);
    } else {
      RanksParse(rows, i0 + 1, ParseRank(acc, i0, rows[i0], 0).value, i);
    }
  }

  /** Each piece letter of the placement field is on the board, on bit (7 - i) * 8 + 7 - j. */
  lemma ParseFenPlaces(fen: string, i: int, k: int, piece: Piece)
    requires ParseFen(fen).Ok?
    requires var rows := Split(Split(fen, ' ')[0], '/');
      0 <= i < |rows| && 0 <= k < |rows[i]| && PieceOfChar(rows[i][k]) == Some(piece)
    ensures var rows := Split(Split(fen, ' ')[0], '/');
      var bit := (7 - i) * 8 + 7 - Width(rows[i][..k]);
      && 0 <= bit < 64
      && bit in ParseFen(fen).value.PiecesOf(piece.color)
      && bit in ParseFen(fen).value.PiecesOfKind(piece.kind)
  {
    var parts := Split(fen, ' ');
    var rows := Split(parts[0], '/');
    PlacePiecesPlaces(rows, 0, EmptyBoard, i, k, piece);
  }

  /** One of the eight piece masks: a colour mask or a kind mask. */
  datatype PieceMask = ColorBits(color: Color) | KindBits(kind: PieceKind)

  function MaskBits(p: Position, m: PieceMask): Bitboard
  {
    match m
    case ColorBits(c) => p.PiecesOf(c)
    case KindBits(k) => p.PiecesOfKind(k)
  }

  /** The piece belongs in mask `m`: it has that colour, or that kind. */
  predicate InMask(piece: Piece, m: PieceMask)
  {
    match m
    case ColorBits(c) => piece.color == c
    case KindBits(k) => piece.kind == k
  }

  /**
   * Character k of `row`, read from column j of rank i, is a letter of a
   * piece belonging in mask `m`, and its bit is `bit`.
   */
  predicate LetterOn(i: int, row: string, j: int, k: int, m: PieceMask, bit: int)
  {
    && 0 <= k < |row|
    && PieceOfChar(row[k]).Some? && InMask(PieceOfChar(row[k]).value, m)
    && bit == (7 - i) * 8 + 7 - (j + Width(row[..k]))
  }

  /** A step adds to mask `m` at most the bit of its own letter. */
  lemma StepOnlyPlaces(acc: Position, i: int, c: char, j: int, m: PieceMask, bit: int)
    requires 0 <= i < 8 && 0 <= j && RankStep(acc, i, c, j).Ok?
    requires bit in MaskBits(RankStep(acc, i, c, j).value.0, m)
    ensures bit in MaskBits(acc, m) ||
      (PieceOfChar(c).Some? && InMask(PieceOfChar(c).value, m) && bit == (7 - i) * 8 + 7 - j)
  {
    if !IsRunDigit(c) {
      var placed := PieceOfChar(c).value;
      match m {
        case ColorBits(col) =>
          if col != placed.color {
            assert col == Not(placed.color);
          }
        case KindBits(k) =>
      }
    }
  }

  /** Decoding the rest of a rank adds to mask `m` only the bits of its letters that belong there. */
  lemma {:induction false} ParseRankOnlyPlaces(acc: Position, i: int, row: string, j: int, m: PieceMask, bit: int)
    requires 0 <= i < 8 && 0 <= j && ParseRank(acc, i, row, j).Ok?
    requires bit in MaskBits(ParseRank(acc, i, row, j).value, m)
    ensures bit in MaskBits(acc, m) || exists k :: LetterOn(i, row, j, k, m, bit)
    decreases |row|
  {
    if |row| > 0 {
      var step := RankStep(acc, i, row[0], j).value;
      ParseRankOnlyPlaces(step.0, i, row[1..], step.1, m, bit);
      if bit in MaskBits(step.0, m) {
        StepOnlyPlaces(acc, i, row[0], j, m, bit);
        if bit !in MaskBits(acc, m) {
          assert row[..0] == "";
          assert LetterOn(i, row, j, 0, m, bit);
        }
      } else {
        var k :| LetterOn(i, row[1..], step.1, k, m, bit);
        assert row[..k + 1][1..] == row[1..][..k];
        assert Width(row[..k + 1]) == CharWidth(row[0]) + Width(row[1..][..k]);
        assert LetterOn(i, row, j, k + 1, m, bit);
      }
    }
  }

  /** Decoding the ranks from `i0` on adds to mask `m` only the bits of their letters that belong there. */
  lemma {:induction false} PlacePiecesOnlyPlaces(rows: seq<string>, i0: int, acc: Position, m: PieceMask, bit: int)
    requires 0 <= i0 <= |rows| <= 8 && PlacePieces(rows, i0, acc).Ok?
    requires bit in MaskBits(PlacePieces(rows, i0, acc).value, m)
    ensures bit in MaskBits(acc, m) || exists i, k :: i0 <= i < |rows| && LetterOn(i, rows[i], 0, k, m, bit)
    decreases |rows| - i0
  {
    if i0 < |rows| {
      var next := ParseRank(acc, i0, rows[i0], 0).value;
      PlacePiecesOnlyPlaces(rows, i0 + 1, next, m, bit);
      if bit in MaskBits(next, m) {
        ParseRankOnlyPlaces(acc, i0, rows[i0], 0, m, bit);
      }
    }
  }

  /**
   * The decoded masks hold exactly the letters' bits: a bit is in a colour or
   * kind mask iff some letter of that colour or kind stands on it.
   */
  lemma ParseFenMasksExact(fen: string, m: PieceMask, bit: int)
    requires ParseFen(fen).Ok?
    ensures var rows := Split(Split(fen, ' ')[0], '/');
      bit in MaskBits(ParseFen(fen).value, m) <==>
        exists i, k :: 0 <= i < |rows| && LetterOn(i, rows[i], 0, k, m, bit)
  {
    var rows := Split(Split(fen, ' ')[0], '/');
    ParseFenBoard(fen);
    var board := PlacePieces(rows, 0, EmptyBoard).value;
    if bit in MaskBits(board, m) {
      PlacePiecesOnlyPlaces(rows, 0, EmptyBoard, m, bit);
    }
    if i, k :| 0 <= i < |rows| && LetterOn(i, rows[i], 0, k, m, bit) {
      LetterIsPlaced(fen, i, k, m, bit);
    }
  }

  /** The decoded position is the placed board with the decoded status word. */
  lemma ParseFenBoard(fen: string)
    requires ParseFen(fen).Ok?
    ensures var rows := Split(Split(fen, ' ')[0], '/');
      && |rows| == 8 && PlacePieces(rows, 0, EmptyBoard).Ok?
      && forall m :: MaskBits(ParseFen(fen).value, m) == MaskBits(PlacePieces(rows, 0, EmptyBoard).value, m)
  {
  }

  lemma LetterIsPlaced(fen: string, i: int, k: int, m: PieceMask, bit: int)
    requires ParseFen(fen).Ok?
    requires var rows := Split(Split(fen, ' ')[0], '/');
      0 <= i < |rows| && LetterOn(i, rows[i], 0, k, m, bit)
    ensures bit in MaskBits(ParseFen(fen).value, m)
  {
    var rows := Split(Split(fen, ' ')[0], '/');
    var piece := PieceOfChar(rows[i][k]).value;
    ParseFenPlaces(fen, i, k, piece);
  }

  /** The decoded status word reads as the side, castling and en-passant fields say. */
  lemma ParseFenFields(fen: string)
    requires ParseFen(fen).Ok?
    ensures var parts := Split(fen, ' ');
      var ep := EnPassantField(parts[3]);
      && ep.Ok?
      && ParseFen(fen).value.Fields() == StatusFields('K' in parts[2], 'Q' in parts[2], 'k' in parts[2], 'q' in parts[2],
           if parts[1] == "w" then White else Black, Some(if ep.value.None? then 0 else ep.value.value))
  {
    var parts := Split(fen, ' ');
    var ep := EnPassantField(parts[3]);
    EnPassantFieldIff(parts[3]);
    var castling := parts[2];
    FenStatusFields(ParseFen(fen).value, parts[1] == "w", 'K' in castling, 'Q' in castling,
      'k' in castling, 'q' in castling, ep.value);
  }

  // ---------------------------------------------------------------------------
  // `from_str`: local masks built in nested loops.
  // ---------------------------------------------------------------------------

  /** One rank of `from_str`'s loop: each piece letter ORs its square into a colour mask and a kind mask. */
  method DecodeRank(start: Position, i: int, row: string) returns (r: Result<Position>)
    requires 0 <= i < 8
    ensures r == ParseRank(start, i, row, 0)
  {
    var board := start;
    var j := 0;
    for k := 0 to |row|
      invariant 0 <= j
      invariant ParseRank(start, i, row, 0) == ParseRank(board, i, row[k..], j)
    {
      var c := row[k];
      assert row[k..][0] == c && row[k..][1..] == row[k + 1..];
      ghost var before, column := board, j;
      if IsRunDigit(c) {
        j := j + (c as int - '0' as int);
      } else {
        var found := PieceOfChar(c);
        if found.None? {
          assert ParseRank(board, i, row[k..], j) == Err("Invalid FEN character, expected a piece representation (PNBRQKpnbrqk)");
          return Err("Invalid FEN character, expected a piece representation (PNBRQKpnbrqk)");
        }
        var piece := found.value;
        if j > (7 - i) * 8 + 7 {
          assert ParseRank(board, i, row[k..], j) == Err("attempt to subtract with overflow");
          return Err("attempt to subtract with overflow");
        }
        var squareMask := SquareMask((7 - i) * 8 + 7 - j);
        match piece.color {
          case White => board := board.(whitePieces := board.whitePieces + squareMask);
          case Black => board := board.(blackPieces := board.blackPieces + squareMask);
        }
        match piece.kind {
          case Pawn => board := board.(pawns := board.pawns + squareMask);
          case Knight => board := board.(knights := board.knights + squareMask);
          case Bishop => board := board.(bishops := board.bishops + squareMask);
          case Rook => board := board.(rooks := board.rooks + squareMask);
          case Queen => board := board.(queens := board.queens + squareMask);
          case King => board := board.(kings := board.kings + squareMask);
        }
        assert board == Place(before, piece, (7 - i) * 8 + 7 - column);
        j := j + 1;
      }
      assert RankStep(before, i, c, column) == Ok((board, j));
      assert ParseRank(before, i, row[k..], column) == ParseRank(board, i, row[k + 1..], j);
    }
    assert row[|row|..] == "";
    r := Ok(board);
  }

  /** `from_str`'s reading of the en-passant field. */
  method DecodeEnPassant(field: string) returns (r: Result<Option<int>>)
    ensures r == EnPassantField(field)
    ensures r.Ok? && r.value.Some? ==> 0 <= r.value.value < 48
  {
    EnPassantFieldIff(field);
    if field == "-" {
      return Ok(None);
    }
    if |field| == 0 {
      return Err("index out of bounds");
    }
    if field[0] as int > 'h' as int {
      return Err("attempt to subtract with overflow");
    }
    if |field| < 2 {
      return Err("index out of bounds");
    }
    if (field[1] as int) < '1' as int {
      return Err("attempt to subtract with overflow");
    }
    var col := 'h' as int - field[0] as int;
    var row := field[1] as int - '1' as int;
    if col > 7 || (row != 2 && row != 5) {
      return Err("Invalid FEN, en passant target square is not valid");
    }
    r := Ok(Some(row * 8 + col));
  }

  /** `from_str`'s handling of the side, castling and en-passant fields, from a zero status word. */
  method DecodeStatus(side: string, castling: string, field: string) returns (r: Result<StatusWord>)
    ensures r == StatusOf(side, castling, field)
  {
    var status: StatusWord := 0;
    var white := side == "w";
    if white {
      status := status | CurrentTurnMask;
    } else if side != "b" {
      return Err("Invalid FEN, expected 'w' or 'b' for side to move");
    }
    var wq, wk, bq, bk := 'Q' in castling, 'K' in castling, 'q' in castling, 'k' in castling;
    if wq {
      status := status | WhiteQueensideCastleMask;
    }
    if wk {
      status := status | WhiteKingsideCastleMask;
    }
    if bq {
      status := status | BlackQueensideCastleMask;
    }
    if bk {
      status := status | BlackKingsideCastleMask;
    }
    ghost var low := LowStatus(white, wk, wq, bk, bq);
    assert status == low;
    var ep := DecodeEnPassant(field);
    match ep {
      case Err(e) =>
        return Err(e);
      case Ok(None) =>
        assert StatusOf(side, castling, field) == Ok(low);
      case Ok(Some(index)) =>
        status := OrEnPassant(status, index);
        assert StatusOf(side, castling, field) == Ok(OrEnPassant(low, index));
    }
    r := Ok(status);
  }

  /** `from_str`: the ranks into the masks, then the status word. */
  method FromStr(fen: string) returns (r: Result<Position>)
    ensures r == ParseFen(fen)
  {
    var parts := Split(fen, ' ');
    if |parts| != 6 {
      return Err("Invalid FEN, expected 6 parts");
    }
    var rows := Split(parts[0], '/');
    if |rows| != 8 {
      return Err("Invalid FEN, expected 8 rows");
    }
    var board := EmptyBoard;
    for i := 0 to |rows|
      invariant PlacePieces(rows, 0, EmptyBoard) == PlacePieces(rows, i, board)
    {
      var decoded := DecodeRank(board, i, rows[i]);
      if decoded.Err? {
        return Err(decoded.message);
      }
      board := decoded.value;
    }
    var status := DecodeStatus(parts[1], parts[2], parts[3]);
    if status.Err? {
      return Err(status.message);
    }
    r := Ok(board.(status := status.value));
  }
}
