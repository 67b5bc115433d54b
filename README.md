# A verified model of a bitboard chess move generator

This project models the move-generation and legality core of a small chess
engine written in Rust. A position is a set of piece masks (one per colour
and one per kind) plus a 64-bit status word. The status word holds the four
castling rights, the side to move and a 6-bit en-passant field whose
all-ones value means "no target". On top of that representation the engine
provides:

- square reads and writes;
- the delta arithmetic that keeps steps from wrapping across a file edge;
- occupancy queries;
- attack detection;
- per-piece pseudo-legal move generation, with pawn promotion, en passant
  and castling;
- a legality filter that applies each move to a copy of the board and drops
  it when the mover's king is attacked;
- move application and the UCI text codec for moves;
- the FEN decoder.

The repository has two generations of the same rules, and both are modelled.
Each Dafny file follows one source file:

| Dafny file | module | source file |
|---|---|---|
| chess_piece.dfy | Pieces | src/board_representation/src/chess_piece.rs |
| legacy_chess_piece.dfy | LegacyPieces | src/chess_piece.rs |
| move_directions.dfy | Directions | src/moves_generation/src/move_directions.rs |
| chess_board.dfy | Board | src/chess_board.rs (board, status word, `Default`) |
| fen.dfy | Fen | src/chess_board.rs (`from_str`) |
| chess_board_utils.dfy | BoardUtils | src/board_representation/src/chess_board_utils.rs, src/chess_board_utils.rs |
| checked_squares.dfy | CheckedSquares | src/moves_generation/src/checked_squares_utils.rs |
| valid_moves.dfy | ValidMoves | src/moves_generation/src/valid_moves.rs |
| chess_move.dfy | Moves | src/moves_generation/src/chess_move.rs |
| legacy_chess_move.dfy | LegacyMoves | src/chess_move.rs |
| grid.dfy | Grid | (row, column) access for the two files below |
| check_mate.dfy | GridAttacks, CheckMate | src/check_mate.rs |
| legacy_valid_moves.dfy | LegacyValidMoves | src/valid_moves.rs |
| seqs.dfy | Seqs | list concatenation and selection shared by the generators |
| wrappers.dfy | Wrappers | `Option` and `Result` |

Several helpers are copied between files of the repository. Each is modelled
once, where its first copy lives, and the other copies use it:

- `apply_delta`, `apply_delta_with_dist` and `within_bounds`
  (src/chess_board.rs, src/chess_board_utils.rs:5-32 and
  checked_squares_utils.rs:4-23) are in Board.
- The occupancy queries (src/chess_board.rs:88-151 and 188-196,
  src/chess_board_utils.rs:35-134, checked_squares_utils.rs:25-42) are in
  BoardUtils.
- The UCI codec of src/chess_move.rs:13-74 is Moves' codec.
- `Color` and `!` in src/chess_piece.rs are those of Pieces.

How the model is built:

- The board object that move application updates in place is the class
  `Board.ChessBoard`. Its value is a `Position`, and each method is specified
  by the function on `Position` that it performs. The source's `clone()` is
  the constructor `ChessBoard.FromPosition`.
- Every generator that appends to a growing list in a loop is a method with a
  loop. Each one is proved equal to a specification function, and lemmas say
  which moves that function contains: an "if and only if" per generator.
- Each attack test is proved equivalent to an independent statement about
  which piece stands where. Examples are "some knight of the other colour is a
  knight's jump away", and "some slider of the other colour stands on a ray
  whose earlier squares are all empty".
- The legality filter is proved to keep exactly the moves after which the
  mover's king is not attacked, in their original order.
- Move application is proved to move the piece, keep every unrelated square,
  and flip the turn. It also sets the en-passant target to the midpoint of a
  pawn move of more than nine squares, and clears the castling rights that its
  square tables name for the move's source and target squares.
- The UCI codec is proved to round-trip.
- The FEN decoder is proved to place each piece letter on its square, and to
  decode the side, castling and en-passant fields as the source does,
  including each of its panics.

The coordinate conventions of the files disagree, and each file is modelled
as written:

- the FEN decoder puts file h on column 0;
- the UCI codec puts file a on column 0;
- `Default` puts the kings on bit 4;
- the generator castles 3 to 1 and 3 to 5;
- the newer move application expects 4 to 2 and 4 to 6.

For that reason no lemma connects castling across files.

## Model

| member | source | states |
|---|---|---|
| Pieces.Not | src/board_representation/src/chess_piece.rs:28-37 | `!c` is never `c` |
| Pieces.NotInvolution | src/board_representation/src/chess_piece.rs:28-37 | `!!c == c` and `!c != c` |
| Pieces.PieceEquality | src/board_representation/src/chess_piece.rs:39-43 | two pieces are equal exactly when kind and colour both agree |
| Pieces.PromotableKindsFacts | src/board_representation/src/chess_piece.rs:15-20 | the promotable kinds are Queen, Rook, Bishop, Knight in that order, pairwise distinct, and a kind is among them iff it is neither Pawn nor King |
| Pieces.NamedPiecesFacts | src/board_representation/src/chess_piece.rs:45-103 | each of the twelve constants has the kind and colour its name says, they are pairwise distinct, and every piece is one of them |
| LegacyPieces.WhitePawnPiece | src/chess_piece.rs:39-44 | a White Pawn |
| LegacyPieces.WhiteQueenPiece | src/chess_piece.rs:46-51 | a White Queen |
| LegacyPieces.BlackPawnPiece | src/chess_piece.rs:53-58 | a Black Pawn |
| LegacyPieces.BlackQueenPiece | src/chess_piece.rs:60-65 | a Black Queen |
| LegacyPieces.WhiteRookPiece | src/chess_move.rs:111-114 | a White Rook (the constructor the castling code calls) |
| LegacyPieces.BlackRookPiece | src/chess_move.rs:119-122 | a Black Rook (the constructor the castling code calls) |
| LegacyPieces.ConstructorsFacts | src/chess_piece.rs:21-65 | the four constructors agree with the named constants, are pairwise distinct, and the two pawns have opposite colours under `!` |
| Directions.KnightDirectionsFacts | src/moves_generation/src/move_directions.rs:2-11 | eight pairwise-distinct deltas, each with absolute components {1, 2}, closed under negation |
| Directions.BishopDirectionsFacts | src/moves_generation/src/move_directions.rs:12 | four distinct deltas with both components ±1, closed under negation |
| Directions.RookDirectionsFacts | src/moves_generation/src/move_directions.rs:14 | four distinct deltas with one zero component and the other ±1, closed under negation |
| Directions.KingDirectionsFacts | src/moves_generation/src/move_directions.rs:16-25 | eight distinct deltas whose set is the union of the rook and bishop sets, exactly the one-square steps, closed under negation |
| Board.ApplyDelta | src/chess_board.rs:18-29 | the result is -1 or a square in 0..63; from an on-board square it is on the board exactly when the target rank and file are both in 0..7, and then it has exactly that rank and file (no wrap across an edge) |
| Board.ApplyDeltaWithDist | src/chess_board.rs:31-33 | the result is -1 or a square in 0..63 |
| Board.ApplyDeltaWithDistOffsets | src/chess_board.rs:31-33 | the `dist`-th square along a delta is on the board iff its rank and file are `dist` times the delta away and in 0..7, and it has that rank and file |
| Board.RayLeavesBoard | src/chess_board.rs:18-33 | along a one-square direction every distance of 24 or more is off the board, so the ray loops terminate |
| Board.WithinBounds | src/chess_board.rs:67-73 | Some exactly for 0..63, carrying the index unchanged |
| Board.WithinBoundsOfDelta | src/chess_board.rs:18-29 | `within_bounds(apply_delta(i, d))` is Some exactly when the target rank and file are in 0..7, with the index of that rank and file |
| Board.Position.At | src/chess_board.rs:153-181 | Empty iff the bit is in no colour mask; an occupied square is White iff its bit is in the white mask and its bit is in the mask of the kind read (the test order is stated by Board.Position.AtKindIsFirst) |
| Board.Position.AtKindIsFirst | src/chess_board.rs:163-175 | the kind read is the first of pawn, knight, bishop, rook, queen, king whose mask holds the bit: it is in that mask and in none tested before it, so overlapping kind masks resolve to the earliest kind |
| Board.Position.AtDecodes | src/chess_board.rs:153-181 | on a valid board a square holds a piece exactly when its bit is in that piece's colour mask and kind mask |
| Board.Position.SetAtReadsBack | src/chess_board.rs:198-225 | after `set_at(i, s)`, `at(i) == s` |
| Board.Position.SetAtColorMask | src/chess_board.rs:198-225 | after `set_at(i, s)` bit `i` of a colour mask is set exactly when `s` holds a piece of that colour; the other bits keep their value |
| Board.Position.SetAtKindMask | src/chess_board.rs:198-225 | after `set_at(i, s)` bit `i` of a kind mask is set exactly when `s` holds a piece of that kind; the other bits keep their value |
| Board.Position.SetAtKeepsMasks | src/chess_board.rs:198-225 | `set_at(i, s)` changes no mask bit outside square `i` and leaves the status word alone |
| Board.Position.SetAtKeepsBits | src/chess_board.rs:198-225 | every bit `j != i` of all eight masks is the same after `set_at(i, s)` |
| Board.Position.SetAtKeepsSquare | src/chess_board.rs:198-225 | every other square reads back as before `set_at(i, s)` |
| Board.Position.SetAtCoherent | src/chess_board.rs:198-225 | `set_at` keeps every occupied square decodable (a colour bit implies a kind bit) |
| Board.Position.SetAtColorsDisjoint | src/chess_board.rs:198-225 | `set_at` keeps the two colour masks disjoint |
| Board.Position.SetAtSameCover | src/chess_board.rs:198-225 | `set_at` keeps the union of the colour masks equal to the union of the kind masks |
| Board.Position.SetAtKindsDisjoint | src/chess_board.rs:198-225 | `set_at` keeps the six kind masks pairwise disjoint |
| Board.Position.SetAtValid | src/chess_board.rs:198-225 | `set_at` preserves the whole board invariant |
| Board.ToU8 | src/chess_board.rs:326-338 | the eight bits of a u8 index read back as that index |
| Board.FlagReads | src/chess_board.rs:257-302 | a castling setter's mask test reads back the value set |
| Board.FlagKeeps | src/chess_board.rs:257-302 | a castling setter changes no bit outside its own mask |
| Board.SameMasksKeepSquares | src/chess_board.rs:153-181 | positions with the same eight masks decode every square alike and are valid alike |
| Board.SetWhiteCastleKingsideSpec | src/chess_board.rs:257-267 | the getter returns the value set and no other status field changes |
| Board.SetWhiteCastleKingsideKeepsOtherBits | src/chess_board.rs:262-267 | only bit 0 of the status word may change |
| Board.SetWhiteCastleQueensideSpec | src/chess_board.rs:268-278 | the getter returns the value set and no other status field changes |
| Board.SetWhiteCastleQueensideKeepsOtherBits | src/chess_board.rs:273-278 | only bit 1 of the status word may change |
| Board.SetBlackCastleKingsideSpec | src/chess_board.rs:280-290 | the getter returns the value set and no other status field changes |
| Board.SetBlackCastleKingsideKeepsOtherBits | src/chess_board.rs:285-290 | only bit 2 of the status word may change |
| Board.SetBlackCastleQueensideSpec | src/chess_board.rs:292-302 | the getter returns the value set and no other status field changes |
| Board.SetBlackCastleQueensideKeepsOtherBits | src/chess_board.rs:297-302 | only bit 3 of the status word may change |
| Board.CastleSettersKeepMasks | src/chess_board.rs:257-302 | the castling setters leave all eight piece masks unchanged |
| Board.NextTurnFlips | src/chess_board.rs:304-314 | `next_turn` flips the side to move and no other status field |
| Board.NextTurnKeepsOtherBits | src/chess_board.rs:312-314 | `next_turn` changes no status bit but bit 4 |
| Board.NextTurnInvolution | src/chess_board.rs:312-314 | `next_turn` twice is the identity |
| Board.SetEnPassantTarget | src/chess_board.rs:316-338 | the getter after the setter returns None for None, and for `Some(i)` returns `Some(i % 64)` unless that is 63, which reads as None |
| Board.SetEnPassantReads | src/chess_board.rs:316-338 | setting the en-passant target changes no other status field |
| Board.SetEnPassantKeepsLowBits | src/chess_board.rs:326-338 | the castling bits and the turn bit are untouched |
| Board.SetEnPassantKeepsHighBits | src/chess_board.rs:326-338 | for None or an index below 64 no bit outside the 6-bit field changes |
| Board.SetEnPassantKeepsMasks | src/chess_board.rs:326-338 | the piece masks are untouched |
| Board.DefaultValid | src/chess_board.rs:348-362 | the start position satisfies the board invariant |
| Board.DefaultCover | src/chess_board.rs:348-362 | in the start position a bit is in a colour mask iff it is in a kind mask |
| Board.DefaultKindsDisjoint | src/chess_board.rs:348-362 | the start position's kind masks are pairwise disjoint |
| Board.DefaultStatus | src/chess_board.rs:341-362 | the start position has all four castling rights, White to move and no en-passant target |
| Board.DefaultSquares | src/chess_board.rs:348-362 | every square of the start position reads as the layout: White on bits 0-15, Black on bits 48-63, the rest empty |
| Board.DefaultSquare | src/chess_board.rs:348-362 | one square of the start position reads as the layout |
| Board.ChessBoard.FromPosition | src/chess_board.rs:348-362 | the new board holds the given position (the start position for `default`) |
| Board.ChessBoard.SetAt | src/chess_board.rs:198-225 | the board's masks become exactly those of `Position.SetAt` |
| Board.ChessBoard.SetWhiteCastleKingside | src/chess_board.rs:262-267 | the board's status becomes that of the value setter |
| Board.ChessBoard.SetWhiteCastleQueenside | src/chess_board.rs:273-278 | the board's status becomes that of the value setter |
| Board.ChessBoard.SetBlackCastleKingside | src/chess_board.rs:285-290 | the board's status becomes that of the value setter |
| Board.ChessBoard.SetBlackCastleQueenside | src/chess_board.rs:297-302 | the board's status becomes that of the value setter |
| Board.ChessBoard.NextTurn | src/chess_board.rs:312-314 | the board's status becomes that of the value `next_turn` |
| Board.ChessBoard.SetEnPassantTargetSquare | src/chess_board.rs:326-338 | the board's status becomes that of the value setter |
| BoardUtils.WithinBoundsAndEmpty | src/board_representation/src/chess_board_utils.rs:27-35 | Some exactly when the index is on the board and no colour mask holds it, carrying the index |
| BoardUtils.OccupiedByOpponent | src/board_representation/src/chess_board_utils.rs:37-48 | Some only on an occupied square, carrying the index; with disjoint colour masks, Some exactly when the opponent's mask holds it |
| BoardUtils.WithinBoundsAndOccupiedByOpponent | src/board_representation/src/chess_board_utils.rs:50-59 | Some exactly when the index is on the board and (with disjoint colour masks) in the opponent's mask |
| BoardUtils.EmptyExcludesOpponent | src/board_representation/src/chess_board_utils.rs:27-59 | no square is both empty and held by the opponent |
| BoardUtils.WithinBoundsAndPawnTakeTarget | src/board_representation/src/chess_board_utils.rs:61-76 | Some exactly when the index is on the board and is the en-passant target or holds an opponent's piece |
| BoardUtils.MaybePieceAt | src/board_representation/src/chess_board_utils.rs:78-86 | None exactly off the board or on an empty square; otherwise the piece `at` reads |
| BoardUtils.MaybePieceAtMasks | src/board_representation/src/chess_board_utils.rs:78-86 | on a valid board, `maybe_piece_at(i) == Some(piece)` exactly when bit `i` is in that piece's colour and kind masks |
| BoardUtils.ContainsPieceAt | src/board_representation/src/chess_board_utils.rs:95-100 | true exactly when `maybe_piece_at` reports that very piece |
| BoardUtils.PieceAtSourceOrPanic | src/board_representation/src/chess_board_utils.rs:88-93 | an error (the panic) exactly on an empty square, otherwise the piece on it |
| BoardUtils.ContainsPieceInAnyDirection | src/chess_board_utils.rs:124-133 | true exactly when some delta of the list lands on a square holding the piece |
| BoardUtils.LowestBitFrom | src/board_representation/src/chess_board_utils.rs:107 | the lowest set bit at or above `from`, or 64 when there is none |
| BoardUtils.TrailingZeros | src/board_representation/src/chess_board_utils.rs:107 | 64 exactly for the empty mask, otherwise the lowest set bit |
| BoardUtils.FindKing | src/board_representation/src/chess_board_utils.rs:102-108 | 64 exactly when no king of the colour is on the board, otherwise the lowest square holding one |
| BoardUtils.FindKingOfOneKing | src/board_representation/src/chess_board_utils.rs:102-108 | with exactly one king of the colour, `find_king` returns its square |
| BoardUtils.ForEachPiece | src/board_representation/src/chess_board_utils.rs:13-25 | the loop's callback invocations are exactly the list `PieceList` |
| BoardUtils.OccupiedFromEntries | src/board_representation/src/chess_board_utils.rs:17-24 | every visit from `from` on is an occupied square with the piece `at` reports |
| BoardUtils.OccupiedFromSorted | src/board_representation/src/chess_board_utils.rs:17-24 | visits come in strictly increasing square order |
| BoardUtils.OccupiedFromComplete | src/board_representation/src/chess_board_utils.rs:17-24 | every occupied square from `from` on is visited |
| BoardUtils.PieceListFacts | src/board_representation/src/chess_board_utils.rs:13-25 | `for_each_piece` calls back once per occupied square, in increasing order, with its piece, and never for an empty square |
| Moves.PromotionKindOf | src/moves_generation/src/chess_move.rs:34-40 | a kind exactly for the letters q, r, b, n, and the one each names |
| Moves.PromotionCharOf | src/moves_generation/src/chess_move.rs:58-67 | a letter exactly for the four promotable kinds, and parsing the letter gives the kind back |
| Moves.Move.ToUciString | src/moves_generation/src/chess_move.rs:50-74 | fails (the panic) exactly for a promotion to Pawn or King; otherwise four characters, five with a promotion |
| Moves.FromUciString | src/moves_generation/src/chess_move.rs:20-48 | succeeds exactly on text matching `^[a-h][1-8][a-h][1-8][qrbn]?$`; both squares are then on the board and the promotion is present exactly for five characters |
| Moves.UciRoundTrip | src/moves_generation/src/chess_move.rs:20-74 | printing a move with on-board squares and a promotable kind, then parsing it, gives the move back |
| Moves.UciTextRoundTrip | src/moves_generation/src/chess_move.rs:20-74 | parsing a well-formed UCI text, then printing it, gives the text back |
| Moves.BaseMove | src/moves_generation/src/chess_move.rs:13-19 | a move between the two squares without promotion |
| Moves.Move.CastleInvalidation | src/moves_generation/src/chess_move.rs:76-100 | the board becomes its castle-invalidated value |
| Moves.Move.InvalidateFromRights | src/moves_generation/src/chess_move.rs:77-91 | leaving 0, 7, 56, 63 clears WQ, WK, BQ, BK; leaving 4 or 60 clears both rights of that side; nothing else changes |
| Moves.Move.InvalidateToRights | src/moves_generation/src/chess_move.rs:93-99 | landing on 0, 7, 56, 63 clears WQ, WK, BQ, BK; nothing else changes |
| Moves.Move.CastleInvalidationRights | src/moves_generation/src/chess_move.rs:76-100 | the status fields after invalidation are exactly the old rights minus those the two tables clear; turn, en-passant target and pieces are unchanged |
| Moves.Move.MoveRookWhenCastling | src/moves_generation/src/chess_move.rs:102-124 | the board becomes its rook-relocated value |
| Moves.Move.MoveRookWhenCastlingSpec | src/moves_generation/src/chess_move.rs:102-124 | a king moving 4 to 2, 4 to 6, 60 to 58 or 60 to 62 puts its rook beside it (3, 5, 59, 61) and empties the corner (0, 7, 56, 63); every other move changes nothing; no other square and no status bit changes and validity is kept |
| Moves.Move.RemovePieceAfterEnPassant | src/moves_generation/src/chess_move.rs:126-138 | succeeds exactly when its function does, and the board becomes that value |
| Moves.Move.EnPassantCaptureSpec | src/moves_generation/src/chess_move.rs:126-138 | a pawn landing on the en-passant target empties the square 8 behind it (White) or ahead of it (Black) and nothing else; it fails only when that square is off the board; other moves change nothing |
| Moves.Move.UpdateEnPassantTargetSquare | src/moves_generation/src/chess_move.rs:148-154 | succeeds exactly when its function does, and the board becomes that value |
| Moves.Move.UpdateEnPassantSpec | src/moves_generation/src/chess_move.rs:140-154 | with both squares on the board the target becomes the midpoint of a pawn move of more than nine squares and none otherwise; no other status field and no piece changes |
| Moves.Move.PromotedPiece | src/moves_generation/src/chess_move.rs:167-173 | the mover's colour, with the promotion kind when there is one and the mover's kind otherwise |
| Moves.Move.MovePiece | src/moves_generation/src/chess_move.rs:156-179 | succeeds exactly when the whole-move function does, and the board becomes that value |
| Moves.Move.CastlingStepsKeepStatus | src/moves_generation/src/chess_move.rs:162-163 | invalidation and rook relocation keep the board coherent and leave the en-passant target alone |
| Moves.Move.EnPassantCaptureKeepsStatus | src/moves_generation/src/chess_move.rs:164 | the en-passant capture leaves the status word alone and keeps the board coherent |
| Moves.Move.MovingPieceSucceeds | src/moves_generation/src/chess_move.rs:162-178 | once the piece is read off `from`, the move succeeds exactly when `to` is on the board and an en-passant capture does not take a pawn off the board |
| Moves.Move.MovePieceSucceeds | src/moves_generation/src/chess_move.rs:156-179 | `move_piece` succeeds exactly when both squares are on the board, the source is occupied, and an en-passant capture stays on the board |
| Moves.Move.MovingPieceStatus | src/moves_generation/src/chess_move.rs:162-178 | the new status: rights cleared by the invalidation tables, the side to move flipped, the en-passant target the midpoint of a double pawn move or none |
| Moves.Move.MovingPieceFields | src/moves_generation/src/chess_move.rs:162-178 | the new status fields are those after invalidation with the turn flipped and the new en-passant target |
| Moves.Move.PreparedKeepsStatus | src/moves_generation/src/chess_move.rs:163-164 | rook relocation and the en-passant capture leave the status word as invalidation left it |
| Moves.Move.ComposeStatus | src/moves_generation/src/chess_move.rs:162-178 | the status fields of the step chain compose: invalidated rights, new target, flipped turn |
| Moves.Move.MovePieceStatus | src/moves_generation/src/chess_move.rs:156-179 | the status fields after `move_piece`, as `MovingPieceStatus` states them, for a move that succeeds |
| Moves.Move.PreparationKeepsSquares | src/moves_generation/src/chess_move.rs:162-164 | the steps before the landing change only the castling rook's squares and the captured pawn's square |
| Moves.Move.PreparationMovesRook | src/moves_generation/src/chess_move.rs:163 | before the landing a castling rook stands beside the king and its corner is empty |
| Moves.Move.PreparationCapturesEnPassant | src/moves_generation/src/chess_move.rs:164 | before the landing the pawn taken en passant is gone |
| Moves.Move.LandingSquares | src/moves_generation/src/chess_move.rs:175-176 | the landing empties `from`, puts the (possibly promoted) piece on `to` and changes no other square |
| Moves.Move.MovingPieceLands | src/moves_generation/src/chess_move.rs:165-178 | after a successful move the (possibly promoted) piece stands on `to` and `from` is empty |
| Moves.Move.MovingPieceKeepsSquare | src/moves_generation/src/chess_move.rs:175-178 | a square other than `from` and `to` is as the preparation steps left it |
| Moves.Move.MovingPieceKeepsSquares | src/moves_generation/src/chess_move.rs:162-178 | no square outside source, target, the castling rook's squares and the captured pawn's square changes |
| Moves.Move.MovingPieceMovesRook | src/moves_generation/src/chess_move.rs:163-178 | after a castling move the rook stands beside the king and its corner is empty |
| Moves.Move.MovingPieceCapturesEnPassant | src/moves_generation/src/chess_move.rs:164-178 | after an en-passant capture the taken pawn's square is empty |
| Moves.Move.MovePieceSquares | src/moves_generation/src/chess_move.rs:156-179 | after `move_piece`: the (possibly promoted) piece on `to`, `from` empty, the castling rook moved, the pawn taken en passant gone, every untouched square as before |
| Moves.Move.MovingPieceKeepsValid | src/moves_generation/src/chess_move.rs:162-178 | a successful move keeps the board invariant |
| Moves.Move.MovePieceKeepsValid | src/moves_generation/src/chess_move.rs:156-179 | `move_piece` keeps the board invariant |
| Moves.Move.MovePieceKeepsCoherent | src/moves_generation/src/chess_move.rs:156-179 | `move_piece` keeps every square decodable |
| Moves.Move.PieceAtSource | src/chess_board_utils.rs:110-115 | an error (the panic) exactly when the move's source square is empty, otherwise the piece on it |
| Moves.RelocateRook | src/moves_generation/src/chess_move.rs:109-121 | putting the rook on one square and emptying another changes no other square and not the status word |
| Moves.ClearSquare | src/moves_generation/src/chess_move.rs:135 | emptying a square changes no other square and not the status word |
| Moves.EmptySquare | src/moves_generation/src/chess_move.rs:131-135 | clearing succeeds exactly for a square in 0..63 |
| Moves.MovePieceUci | src/moves_generation/src/chess_move.rs:182-185 | succeeds exactly when the text parses and the move succeeds, and the board becomes the moved position |
| LegacyMoves.CastleInvalidation | src/chess_move.rs:78-102 | the board becomes its castle-invalidated value |
| LegacyMoves.InvalidateFromRights | src/chess_move.rs:79-93 | leaving 0, 7, 56, 63 clears WK, WQ, BK, BQ; leaving 3 or 59 clears both rights of that side; nothing else changes |
| LegacyMoves.InvalidateToRights | src/chess_move.rs:95-101 | landing on 0, 7, 56, 63 clears WK, WQ, BK, BQ; nothing else changes |
| LegacyMoves.CastleInvalidationRights | src/chess_move.rs:78-102 | the status fields after invalidation are exactly the old rights minus those the two tables clear; turn, en-passant target and pieces are unchanged |
| LegacyMoves.MoveRookIfCastle | src/chess_move.rs:104-126 | the board becomes its rook-relocated value |
| LegacyMoves.MoveRookIfCastleSpec | src/chess_move.rs:104-126 | a king moving 3 to 1, 3 to 5, 59 to 57 or 59 to 61 puts its rook on 2, 4, 58, 60 and empties 0, 7, 56, 63; every other move changes nothing; no other square and no status bit changes and validity is kept |
| LegacyMoves.MovePiece | src/chess_move.rs:159-182 | succeeds exactly when the whole-move function does, and the board becomes that value |
| LegacyMoves.MovePieceUci | src/chess_move.rs:184-187 | succeeds exactly when the text parses and the move succeeds, and the board becomes the moved position |
| LegacyMoves.CastlingStepsKeepStatus | src/chess_move.rs:165-166 | invalidation and rook relocation keep the board coherent and leave the en-passant target alone |
| LegacyMoves.MovingPieceSucceeds | src/chess_move.rs:165-181 | once the piece is read off `from`, the move succeeds exactly when `to` is on the board and an en-passant capture does not take a pawn off the board |
| LegacyMoves.MovePieceSucceeds | src/chess_move.rs:159-182 | `move_piece` succeeds exactly when both squares are on the board, the source is occupied, and an en-passant capture stays on the board |
| LegacyMoves.PreparedKeepsStatus | src/chess_move.rs:166-167 | rook relocation and the en-passant capture leave the status word as invalidation left it |
| LegacyMoves.MovingPieceFields | src/chess_move.rs:165-181 | the new status fields are those after invalidation with the turn flipped and the new en-passant target |
| LegacyMoves.MovingPieceStatus | src/chess_move.rs:165-181 | the new status: rights cleared by the invalidation tables, the side to move flipped, the en-passant target the midpoint of a double pawn move or none |
| LegacyMoves.MovePieceStatus | src/chess_move.rs:159-182 | the status fields after `move_piece`, for a move that succeeds |
| LegacyMoves.PreparationKeepsSquares | src/chess_move.rs:165-167 | the steps before the landing change only the castling rook's squares and the captured pawn's square |
| LegacyMoves.PreparationMovesRook | src/chess_move.rs:166 | before the landing a castling rook stands beside the king and its corner is empty |
| LegacyMoves.PreparationCapturesEnPassant | src/chess_move.rs:167 | before the landing the pawn taken en passant is gone |
| LegacyMoves.MovingPieceLands | src/chess_move.rs:168-181 | after a successful move the (possibly promoted) piece stands on `to` and `from` is empty |
| LegacyMoves.MovingPieceKeepsSquare | src/chess_move.rs:178-181 | a square other than `from` and `to` is as the preparation steps left it |
| LegacyMoves.MovingPieceKeepsSquares | src/chess_move.rs:165-181 | no square outside source, target, the castling rook's squares and the captured pawn's square changes |
| LegacyMoves.MovingPieceMovesRook | src/chess_move.rs:166-181 | after a castling move the rook stands beside the king and its corner is empty |
| LegacyMoves.MovingPieceCapturesEnPassant | src/chess_move.rs:167-181 | after an en-passant capture the taken pawn's square is empty |
| LegacyMoves.MovePieceSquares | src/chess_move.rs:159-182 | after `move_piece`: the (possibly promoted) piece on `to`, `from` empty, the castling rook moved, the pawn taken en passant gone, every untouched square as before |
| LegacyMoves.MovingPieceKeepsValid | src/chess_move.rs:165-181 | a successful move keeps the board invariant |
| LegacyMoves.MovePieceKeepsValid | src/chess_move.rs:159-182 | `move_piece` keeps the board invariant |
| LegacyMoves.MovePieceKeepsCoherent | src/chess_move.rs:159-182 | `move_piece` keeps every square decodable |
| CheckedSquares.ApplyDeltaReaches | src/moves_generation/src/checked_squares_utils.rs:4-15 | between two on-board squares, `apply_delta` reaches the target exactly with the rank and file difference between them |
| CheckedSquares.IsSquareCheckedByKnight | src/moves_generation/src/checked_squares_utils.rs:44-50 | true exactly when some knight delta lands on a knight of the other colour |
| CheckedSquares.IsSquareCheckedByKing | src/moves_generation/src/checked_squares_utils.rs:88-94 | true exactly when some king delta lands on the king of the other colour |
| CheckedSquares.TableCheckIff | src/moves_generation/src/checked_squares_utils.rs:33-42 | some delta of a table lands on the piece exactly when a square holding it lies at one of the table's deltas |
| CheckedSquares.KnightDeltas | src/moves_generation/src/move_directions.rs:2-11 | the knight table holds exactly the deltas with absolute components 1 and 2 |
| CheckedSquares.KingDirectionsUnit | src/moves_generation/src/move_directions.rs:16-25 | every entry of the king table is a one-square step |
| CheckedSquares.KingDeltas | src/moves_generation/src/move_directions.rs:16-25 | the king table holds exactly the one-square steps |
| CheckedSquares.KnightCheckIff | src/moves_generation/src/checked_squares_utils.rs:44-50 | the knight test holds exactly when a knight of the other colour stands a knight's jump away (no wrap across an edge) |
| CheckedSquares.KingCheckIff | src/moves_generation/src/checked_squares_utils.rs:88-94 | the king test holds exactly when the other king stands on a neighbouring square |
| CheckedSquares.RayStop | src/moves_generation/src/checked_squares_utils.rs:54-60 | the distance where the slider loop stops is the first square off the board or occupied, at most 24 away |
| CheckedSquares.RayStopClear | src/moves_generation/src/checked_squares_utils.rs:55-60 | every square before the stop is on the board and empty |
| CheckedSquares.RayStopWithinEight | src/moves_generation/src/checked_squares_utils.rs:55-60 | from an on-board square the slider walk stops by distance 8, so at most seven empty squares are visited |
| CheckedSquares.EighthStepOffBoard | src/moves_generation/src/checked_squares_utils.rs:55-59 | from an on-board square, eight steps in any king direction land off the board, which bounds the walk |
| CheckedSquares.ClearIsNear | src/moves_generation/src/checked_squares_utils.rs:55-60 | a clear square is fewer than 24 steps away, so the walk terminates |
| CheckedSquares.FirstBlockedIsStop | src/moves_generation/src/checked_squares_utils.rs:55-60 | the first square that is not clear is where the walk stops |
| CheckedSquares.ClearBeforeOfAll | src/moves_generation/src/checked_squares_utils.rs:55-60 | all squares before a distance clear gives the recursive clear-before predicate |
| CheckedSquares.ClearBeforeAll | src/moves_generation/src/checked_squares_utils.rs:55-60 | the recursive clear-before predicate gives each square before the distance clear |
| CheckedSquares.RayCheckedWitness | src/moves_generation/src/checked_squares_utils.rs:61-83 | when the ray test holds, an attacking slider stands at the stop with a clear line |
| CheckedSquares.SliderAtStop | src/moves_generation/src/checked_squares_utils.rs:54-83 | an attacking slider with a clear line stands exactly where the walk stops |
| CheckedSquares.RayCheckedIff | src/moves_generation/src/checked_squares_utils.rs:54-83 | the ray test holds exactly when an attacking slider (rook straight, bishop diagonal, queen either, other colour) stands on the ray with nothing between it and the square |
| CheckedSquares.IsSquareCheckedBySlider | src/moves_generation/src/checked_squares_utils.rs:52-86 | returns whether some king-table direction holds an attacking slider at its stop |
| CheckedSquares.CheckedAlongRays | src/moves_generation/src/checked_squares_utils.rs:53-85 | true exactly when some direction of the table holds an attacking slider where its ray stops |
| CheckedSquares.IsSquareCheckedByPawn | src/moves_generation/src/checked_squares_utils.rs:96-112 | returns whether one of the two diagonal squares toward the other side holds one of its pawns |
| CheckedSquares.PawnCheckIff | src/moves_generation/src/checked_squares_utils.rs:96-112 | the pawn test holds exactly when a pawn of the other colour stands one rank up (White) or down (Black) and one file to either side |
| CheckedSquares.IsSquareChecked | src/moves_generation/src/checked_squares_utils.rs:114-119 | true exactly when a slider, knight, king or pawn of the other colour attacks the square |
| CheckedSquares.IsKingChecked | src/moves_generation/src/checked_squares_utils.rs:121-123 | the combined test on the square `find_king` returns |
| CheckedSquares.NoPieceOfColor | src/moves_generation/src/checked_squares_utils.rs:114-119 | with no pieces of a colour, no square holds one |
| CheckedSquares.NoAttackersNoCheck | src/moves_generation/src/checked_squares_utils.rs:114-119 | with no pieces of the other colour on the board, no square is attacked |
| ValidMoves.OpponentAt | src/board_representation/src/chess_board_utils.rs:50-59 | the opponent test holds exactly when the square is on the board and holds a piece of the other colour |
| ValidMoves.EmptyOrOpponent | src/moves_generation/src/valid_moves.rs:52-57 | the empty test or the opponent test holds exactly for an on-board square that is empty or holds a piece of the other colour |
| ValidMoves.LeaperValidMoves | src/moves_generation/src/valid_moves.rs:42-60 | the loop's list is the specification's list of leaper moves, table order kept |
| ValidMoves.LeaperStepIff | src/moves_generation/src/valid_moves.rs:51-57 | one delta gives a move exactly when its target is on the board and free or held by the opponent, and the move is the plain move there |
| ValidMoves.LeaperMovesIff | src/moves_generation/src/valid_moves.rs:42-60 | the leaper's moves are exactly the plain moves from its square to the free-or-opponent squares one table delta away |
| ValidMoves.LeaperMovesCount | src/moves_generation/src/valid_moves.rs:50-58 | at most one move per delta |
| ValidMoves.SliderValidMoves | src/moves_generation/src/valid_moves.rs:12-40 | the nested loop's list is the specification's list of slider moves, ray after ray in table order |
| ValidMoves.RayMovesLength | src/moves_generation/src/valid_moves.rs:20-37 | a ray gives one move per empty square before its stop and one more when the stop holds an opponent's piece |
| ValidMoves.RayMovesClearStep | src/moves_generation/src/valid_moves.rs:24-28 | an empty on-board square gives a move and the walk goes on |
| ValidMoves.RayMovesStop | src/moves_generation/src/valid_moves.rs:29-35 | the first square that is not empty gives a move only when it holds an opponent's piece, and the walk ends |
| ValidMoves.RayMovesElement | src/moves_generation/src/valid_moves.rs:20-37 | the ray's moves go to the successive squares along the ray, in order |
| ValidMoves.RayMovesSound | src/moves_generation/src/valid_moves.rs:20-37 | every move of a ray is a plain move to a free-or-opponent square along it with every square between empty |
| ValidMoves.RayMovesComplete | src/moves_generation/src/valid_moves.rs:20-37 | every plain move along a ray to a free-or-opponent square with every square between empty is generated |
| ValidMoves.RayMovesIff | src/moves_generation/src/valid_moves.rs:20-37 | a ray's moves are exactly the plain moves along it to free-or-opponent squares with nothing in between: no jumping, no taking one's own piece |
| ValidMoves.SliderMovesIff | src/moves_generation/src/valid_moves.rs:12-40 | the slider's moves are exactly the moves one of its table's rays gives |
| ValidMoves.MaybePromotionMoves | src/moves_generation/src/valid_moves.rs:90-104 | the loop's list is the specification's expansion of one pawn step |
| ValidMoves.PromotionMovesFacts | src/moves_generation/src/valid_moves.rs:82-104 | off the promotion row one plain move; on it (above 55 for White, below 8 for Black) four moves promoting to Queen, Rook, Bishop, Knight in that order |
| ValidMoves.PromotionMovesIff | src/moves_generation/src/valid_moves.rs:90-104 | a move is in the expansion exactly when it goes between the two squares and carries a promotion exactly on the promotion row, never to Pawn or King |
| ValidMoves.PawnValidMoves | src/moves_generation/src/valid_moves.rs:113-143 | the method's list is the specification's list of pawn moves: pushes, right take, left take |
| ValidMoves.PawnTakeTargetAt | src/board_representation/src/chess_board_utils.rs:61-76 | the take test holds exactly on an on-board square that is the en-passant target or holds a piece of the other colour |
| ValidMoves.DoublePushNotPromotion | src/moves_generation/src/valid_moves.rs:106-111 | from the initial rank the double push lands off the promotion row |
| ValidMoves.PawnPushesIff | src/moves_generation/src/valid_moves.rs:119-128 | the pushes are the expanded single push onto an empty square, then the double push from the initial rank over two empty squares |
| ValidMoves.PawnTakeIff | src/moves_generation/src/valid_moves.rs:130-141 | a take goes one rank ahead and one file aside onto the en-passant target or an opponent's piece, expanded on the promotion row |
| ValidMoves.PawnMovesIff | src/moves_generation/src/valid_moves.rs:113-143 | a pawn's moves are exactly its single push, its double push from the initial rank and its two diagonal takes, each promoting exactly on the last rank |
| ValidMoves.CheckEmptySquares | src/moves_generation/src/valid_moves.rs:158-162 | the loop returns whether every listed square is empty |
| ValidMoves.CheckSafeSquares | src/moves_generation/src/valid_moves.rs:168-172 | the loop returns whether no listed square is attacked by the other side |
| ValidMoves.CheckCastlingSquares | src/moves_generation/src/valid_moves.rs:154-174 | true exactly when the empty squares are empty and the safe squares unattacked |
| ValidMoves.IsKingsideCastlePossible | src/moves_generation/src/valid_moves.rs:145-175 | returns the kingside castling condition |
| ValidMoves.IsQueensideCastlePossible | src/moves_generation/src/valid_moves.rs:177-207 | returns the queenside castling condition |
| ValidMoves.WhiteKingsideCastleIff | src/moves_generation/src/valid_moves.rs:145-175 | White may castle kingside iff it holds the right, 1 and 2 are empty and none of 1, 2, 3 is attacked |
| ValidMoves.BlackKingsideCastleIff | src/moves_generation/src/valid_moves.rs:145-175 | Black may castle kingside iff it holds the right, 57 and 58 are empty and none of 57, 58, 59 is attacked |
| ValidMoves.WhiteQueensideCastleIff | src/moves_generation/src/valid_moves.rs:177-207 | White may castle queenside iff it holds the right, 4, 5 and 6 are empty and none of 3, 4, 5 is attacked |
| ValidMoves.BlackQueensideCastleIff | src/moves_generation/src/valid_moves.rs:177-207 | Black may castle queenside iff it holds the right, 60, 61 and 62 are empty and none of 59, 60, 61 is attacked |
| ValidMoves.KnightValidMoves | src/moves_generation/src/valid_moves.rs:62-64 | the leaper moves over the knight table |
| ValidMoves.KingValidMoves | src/moves_generation/src/valid_moves.rs:66-68 | the leaper moves over the king table |
| ValidMoves.RookValidMoves | src/moves_generation/src/valid_moves.rs:70-72 | the slider moves over the rook table |
| ValidMoves.BishopValidMoves | src/moves_generation/src/valid_moves.rs:74-76 | the slider moves over the bishop table |
| ValidMoves.QueenValidMoves | src/moves_generation/src/valid_moves.rs:78-80 | the slider moves over the king table |
| ValidMoves.PieceValidMoves | src/moves_generation/src/valid_moves.rs:209-218 | the moves of the generator for the piece's kind |
| ValidMoves.PieceMovesTargets | src/moves_generation/src/valid_moves.rs:209-218 | every move starts on the piece's square and ends on the board; only a pawn taking en passant may end on a square that is neither free nor the opponent's |
| ValidMoves.AllPossibleMoves | src/moves_generation/src/valid_moves.rs:220-229 | the callback's list is the specification's list of all pseudo-legal moves of the side |
| ValidMoves.PossibleMovesIff | src/moves_generation/src/valid_moves.rs:220-229 | a move is pseudo-legal for the side exactly when it is a move of one of its pieces on its square |
| ValidMoves.PossibleMovesOrdered | src/moves_generation/src/valid_moves.rs:220-229 | the moves come grouped by piece in increasing square order |
| ValidMoves.ConcatSorted | src/moves_generation/src/valid_moves.rs:225 | parts keyed by increasing squares concatenate in order of the start square |
| ValidMoves.KeepsKingSafe | src/moves_generation/src/valid_moves.rs:234-239 | the closure's verdict: None for the panics, otherwise whether the mover's king is unattacked after the move on a copy |
| ValidMoves.FilterKingGoingUnderCheck | src/moves_generation/src/valid_moves.rs:231-242 | the loop's list is the specification's filtered list, or None when a move panics |
| ValidMoves.SelectSorted | src/moves_generation/src/valid_moves.rs:232-241 | selection keeps the order of the input |
| ValidMoves.FilteredMovesDefined | src/moves_generation/src/valid_moves.rs:231-242 | the filter succeeds exactly when no move makes the closure panic |
| ValidMoves.GeneratedMoveKept | src/moves_generation/src/valid_moves.rs:231-242 | the closure never panics on a generated move: its source square is occupied by the mover and moving the piece succeeds |
| ValidMoves.PawnMovesAhead | src/moves_generation/src/valid_moves.rs:113-143 | every pawn move goes forward: a White pawn's target is on row 1 or above, a Black pawn's on row 6 or below, so the promotion test never subtracts past zero |
| ValidMoves.StepAhead | src/moves_generation/src/valid_moves.rs:115-140 | one or two rows forward in the pawn's direction: an on-board target is never on the mover's own back row |
| ValidMoves.KeepMoveDefined | src/moves_generation/src/valid_moves.rs:234-239 | once the source square holds a piece and moving it succeeds, the closure gives a verdict |
| ValidMoves.FilterTotal | src/moves_generation/src/valid_moves.rs:231-242 | the legality filter over the side's generated moves never panics |
| ValidMoves.FilteredMovesIff | src/moves_generation/src/valid_moves.rs:231-242 | the filter keeps exactly the moves after which the mover's king is safe |
| ValidMoves.FilteredMoveWasKept | src/moves_generation/src/valid_moves.rs:231-242 | a kept move was in the input and left the king safe |
| ValidMoves.SafeMoveIsKept | src/moves_generation/src/valid_moves.rs:231-242 | an input move that leaves the king safe is kept |
| ValidMoves.FilteredMovesSorted | src/moves_generation/src/valid_moves.rs:231-242 | the kept moves come in the order of the input |
| ValidMoves.KeptMoveLeavesKingSafe | src/moves_generation/src/valid_moves.rs:234-239 | after a kept move, applied to a copy, the mover's king square is not attacked |
| ValidMoves.AppendCastling | src/moves_generation/src/valid_moves.rs:246-259 | the kept list followed by the kingside and then the queenside castling move when each holds |
| ValidMoves.AllValidMoves | src/moves_generation/src/valid_moves.rs:244-261 | the method's list is the specification's list of all legal moves, and on a position whose colour bits all have a kind the filter never panics, so the list is always present |
| ValidMoves.ValidMovesIff | src/moves_generation/src/valid_moves.rs:244-261 | on every position whose colour bits all have a kind the list exists, and a move is listed exactly when it is a pseudo-legal move of the side that leaves its king safe, or a castling move (3 to 1 / 59 to 57, 3 to 5 / 59 to 61) whose condition holds |
| ValidMoves.KeptMovesIff | src/moves_generation/src/valid_moves.rs:245 | the filter never panics on the generated moves, and the filtered part holds exactly the pseudo-legal moves of the side that leave its king safe |
| ValidMoves.CastleMovesWhenIff | src/moves_generation/src/valid_moves.rs:246-259 | the castling part holds the kingside move iff its condition holds and the queenside move iff its condition holds |
| ValidMoves.CastleMovesIff | src/moves_generation/src/valid_moves.rs:246-259 | a move is a castling move of the list exactly when it is the kingside move with its condition holding or the queenside move with its condition holding |
| ValidMoves.ValidMovesParts | src/moves_generation/src/valid_moves.rs:244-261 | the list is the filtered part followed by the castling part, so a move is listed iff it is in one of them |
| ValidMoves.ValidMovesLayout | src/moves_generation/src/valid_moves.rs:244-261 | the list exists and is the filtered moves in square order followed by the castling moves |
| Grid.IndexOf | src/valid_moves.rs:20-28 | an on-board (row, column) square is bit row * 8 + column, and the index decodes back to the pair |
| Grid.CoordOf | src/check_mate.rs:11 | the (index / 8, index % 8) pair of a bit index is on the board and encodes back to the index |
| Grid.PieceAt | src/check_mate.rs:28 | `maybe_piece_at(i, j)`: a piece exactly on an occupied board square, the piece `at` reads |
| Grid.ContainsPieceInAnyDirectionIff | src/check_mate.rs:19 | the any-direction test holds exactly when some delta lands on a square holding exactly the piece |
| Grid.IndexMove | src/valid_moves.rs:20-28 | the 2-D move as a move between the two bit indices, without promotion |
| Grid.GridUciString | src/valid_moves.rs:177 | the UCI text of a 2-D move parses back to its index move |
| GridAttacks.KingSquare | src/check_mate.rs:5-12 | the lowest king square of the colour as (row, column), and (8, 0) when there is none |
| GridAttacks.LeaperChecksIff | src/check_mate.rs:14-20 | the knight test holds exactly when a knight of the other colour stands one knight delta away, and the king test when the other king stands one king delta away (also src/check_mate.rs:55-61) |
| GridAttacks.RayBound | src/check_mate.rs:24-27 | a one-square ray leaves the board within eight steps |
| GridAttacks.RayStop | src/check_mate.rs:24-27 | the `dist` after the `while` loop: the first square from `dist` on that is not an empty board square, at most 9 |
| GridAttacks.RayStopClear | src/check_mate.rs:25 | every square before the stop is an empty board square |
| GridAttacks.WalkToBlocker | src/check_mate.rs:24-27 | the loop ends with `dist` at the stop |
| GridAttacks.RayWalk | src/check_mate.rs:24-50 | one ray's verdict: the square at the stop holds an attacking slider of the other colour |
| GridAttacks.CheckedAlongRays | src/check_mate.rs:23-52 | true exactly when some ray of the table is checked |
| GridAttacks.KingDirectionsUnit | src/check_mate.rs:23 | every entry of the king table is a one-square step |
| GridAttacks.IsSquareCheckedBySlider | src/check_mate.rs:22-53 | returns the slider test along the king table |
| GridAttacks.SliderCheckedIff | src/check_mate.rs:22-53 | the table is checked exactly when one of its rays is |
| GridAttacks.RayCheckedWitness | src/check_mate.rs:24-50 | when a ray is checked, its stop holds a slider of the other colour moving along that direction with only empty squares before it |
| GridAttacks.SliderAtStop | src/check_mate.rs:24-50 | a slider with only empty squares before it stands exactly at the stop of the walk |
| GridAttacks.RayCheckedIff | src/check_mate.rs:24-50 | a ray is checked exactly when some square along it holds a slider of the other colour that moves in that direction and every earlier square is empty |
| GridAttacks.CheckedBySliderIff | src/check_mate.rs:22-53 | the slider test holds exactly when, along some king direction, the first occupied square holds a slider of the other colour that moves in that direction |
| GridAttacks.RayFirstBlocker | src/check_mate.rs:24-50 | only the first occupied square of a ray counts: every square before the stop is empty and the stop is off the board or occupied |
| GridAttacks.IsSquareCheckedByPawn | src/check_mate.rs:63-79 | true exactly when a pawn of the other colour stands one row up (White) or down (Black) and one column aside |
| GridAttacks.IsSquareChecked | src/check_mate.rs:81-86 | the four tests in the source order |
| GridAttacks.IsKingChecked | src/check_mate.rs:88-91 | the combined test on the square `find_king` computes |
| GridAttacks.OccupiedInColorMask | src/check_mate.rs:28-31 | an occupied square's bit is in its piece's colour mask |
| GridAttacks.SliderAttackerIsOpponent | src/check_mate.rs:22-53 | a slider check needs a piece of the other colour on the board |
| GridAttacks.LeaperAttackerIsOpponent | src/check_mate.rs:14-20 | a knight or king check needs a piece of the other colour |
| GridAttacks.PawnAttackerIsOpponent | src/check_mate.rs:63-79 | a pawn check needs a pawn of the other colour |
| GridAttacks.AttackNeedsOpponent | src/check_mate.rs:81-86 | a square is attacked only when the other colour has a piece on the board |
| CheckMate.KingCannotMove | src/check_mate.rs:93-95 | the method's answer is the specification's: the king is attacked and the legal list is empty; building the list never panics, so the answer is always present |
| CheckMate.KingCannotMoveIff | src/check_mate.rs:93-95 | on every position whose colour bits all have a kind the answer exists, and the side cannot move exactly when its king is attacked and every pseudo-legal move leaves the king attacked |
| CheckMate.CannotMoveNeedsAttacker | src/check_mate.rs:93-95 | a side that cannot move has an opponent's piece on the board |
| CheckMate.IsStalemate | src/check_mate.rs:98-112 | the double loop returns whether every occupied square holds a king |
| CheckMate.KingSquareIsKing | src/check_mate.rs:101-104 | with disjoint kind masks an occupied square reads as a king exactly when its bit is a king bit |
| CheckMate.NotKingBit | src/check_mate.rs:101-104 | with disjoint kind masks a bit of another kind is not a king bit |
| CheckMate.OnlyKingsIff | src/check_mate.rs:98-112 | with disjoint kind masks the test holds exactly when the king mask covers every occupied square |
| LegacyValidMoves.Swap | src/valid_moves.rs:14-16 | a (dx, dy) entry read as a (row, column) step is still a one-square step |
| LegacyValidMoves.LeaperValidMoves | src/valid_moves.rs:35-56 | the loop's list is the specification's leaper list, table order kept |
| LegacyValidMoves.LeaperMovesIff | src/valid_moves.rs:35-56 | the leaper's moves are exactly the moves to free-or-opponent squares one (dx, dy) entry away, dy changing the row |
| LegacyValidMoves.KnightValidMoves | src/valid_moves.rs:58-70 | the leaper moves over the knight table |
| LegacyValidMoves.KingValidMoves | src/valid_moves.rs:72-85 | the leaper moves over the king table |
| LegacyValidMoves.QuietRayMoves | src/valid_moves.rs:19-24 | `1..dist` gives `dist - 1` moves |
| LegacyValidMoves.QuietRayMovesStep | src/valid_moves.rs:19-24 | one more distance appends the move to the next square |
| LegacyValidMoves.RayValidMoves | src/valid_moves.rs:15-30 | one ray's moves are the specification's: the quiet moves, then the capture onto the blocker |
| LegacyValidMoves.SliderValidMoves | src/valid_moves.rs:6-33 | the nested loop's list is the specification's slider list, ray after ray |
| LegacyValidMoves.RayMovesSound | src/valid_moves.rs:15-30 | every move of a ray goes to a free-or-opponent square of the ray with the way to it clear |
| LegacyValidMoves.RayMovesComplete | src/valid_moves.rs:15-30 | every move to a free-or-opponent square of the ray with the way clear is generated |
| LegacyValidMoves.RayQuietIsMove | src/valid_moves.rs:19-24 | each square before the blocker is a quiet move |
| LegacyValidMoves.RayCaptureIsMove | src/valid_moves.rs:25-30 | the blocker's square is a move when it holds an opponent's piece |
| LegacyValidMoves.ClearBeforeReachesBlocker | src/valid_moves.rs:16-18 | a clear way reaches no further than the blocker |
| LegacyValidMoves.RayMovesIff | src/valid_moves.rs:15-30 | a ray's moves are exactly the moves to free-or-opponent squares along it with every square before them empty |
| LegacyValidMoves.SliderMovesIff | src/valid_moves.rs:6-33 | the slider's moves are exactly those one of its (swapped) rays allows |
| LegacyValidMoves.TablesAreUnit | src/valid_moves.rs:87-108 | the rook, bishop and queen tables hold one-square steps |
| LegacyValidMoves.RookValidMoves | src/valid_moves.rs:87-90 | the slider moves over the rook table |
| LegacyValidMoves.BishopValidMoves | src/valid_moves.rs:92-95 | the slider moves over the bishop table |
| LegacyValidMoves.QueenValidMoves | src/valid_moves.rs:97-109 | the slider moves over the eight-direction table |
| LegacyValidMoves.PawnValidMoves | src/valid_moves.rs:111-147 | the method's list is the specification's pawn list |
| LegacyValidMoves.PawnMovesIff | src/valid_moves.rs:111-147 | a pawn move is one row forward onto an empty square, two rows from the initial row (1 White, 6 Black) over two empty squares, or one row forward and one column aside onto an opponent's piece |
| LegacyValidMoves.PieceValidMoves | src/valid_moves.rs:149-158 | the moves of the generator for the piece's kind |
| LegacyValidMoves.PieceMovesTargets | src/valid_moves.rs:149-158 | every move starts on the piece's square and ends on a board square that is empty or the opponent's |
| LegacyValidMoves.AllPossibleMoves | src/valid_moves.rs:160-169 | the callback's list is the specification's list of the side's pseudo-legal moves |
| LegacyValidMoves.CoordOfIndexOf | src/valid_moves.rs:162 | a board square survives the round trip through its bit index |
| LegacyValidMoves.PossibleMovesIff | src/valid_moves.rs:160-169 | a move is pseudo-legal for the side exactly when it is a move of one of its pieces on its square |
| LegacyValidMoves.KeepsKingSafe | src/valid_moves.rs:174-179 | the closure's verdict: None for the panics, otherwise whether the mover's king is unattacked after the move, applied through its UCI text to a copy |
| LegacyValidMoves.FilterKingGoingUnderCheck | src/valid_moves.rs:171-182 | the loop's list is the specification's filtered list, or None when a move panics |
| LegacyValidMoves.FilteredMovesDefined | src/valid_moves.rs:171-182 | the filter succeeds exactly when no move panics |
| LegacyValidMoves.GeneratedMoveKept | src/valid_moves.rs:171-182 | the closure never panics on a generated move: its text decodes, its source square holds the mover's piece and moving it succeeds |
| LegacyValidMoves.PawnMovesAhead | src/valid_moves.rs:111-147 | every on-board pawn move goes forward: a White pawn's target index is 8 or more and a Black pawn's below 56 |
| LegacyValidMoves.KeepMoveDefined | src/valid_moves.rs:174-179 | once the source square holds a piece and moving it succeeds, the closure gives a verdict |
| LegacyValidMoves.FilterTotal | src/valid_moves.rs:171-182 | the legality filter over the side's generated moves never panics |
| LegacyValidMoves.FilteredMoveWasKept | src/valid_moves.rs:171-182 | a kept move was in the input and left the king safe |
| LegacyValidMoves.SafeMoveIsKept | src/valid_moves.rs:171-182 | an input move that leaves the king safe is kept |
| LegacyValidMoves.FilteredMovesIff | src/valid_moves.rs:171-182 | the filter keeps exactly the moves after which the mover's king is safe |
| LegacyValidMoves.KeptMoveLeavesKingSafe | src/valid_moves.rs:174-179 | a kept move starts on an occupied board square and leaves the mover's king unattacked |
| LegacyValidMoves.AllValidMoves | src/valid_moves.rs:184-187 | the method's list is the specification's legal list, and the filter never panics, so the list is always present |
| LegacyValidMoves.ValidMovesIff | src/valid_moves.rs:184-187 | on every position whose colour bits all have a kind the list exists, and the legal moves are exactly the side's pseudo-legal moves after which its king is safe |
| Fen.Split | src/chess_board.rs:378-381 | `str::split` on one character always gives at least one field |
| Fen.SplitJoin | src/chess_board.rs:378-381 | the fields joined with the separator give the text back, and no field contains the separator |
| Fen.Place | src/chess_board.rs:411-424 | placing a piece ORs its bit into its colour mask and its kind mask and changes no other mask and not the status word |
| Fen.RankStep | src/chess_board.rs:386-427 | one character: a digit advances the file by its value, a piece letter places its piece and advances by one; any other character is the piece-letter error, and a file past 7 - i rows of room is the subtraction-overflow error |
| Fen.StepPlaces | src/chess_board.rs:392-426 | a piece letter's step puts the piece on bit (7 - i) * 8 + 7 - j |
| Fen.ParseRankKeeps | src/chess_board.rs:386-429 | decoding a rank keeps every bit already placed and the status word |
| Fen.PlacePiecesKeeps | src/chess_board.rs:384-430 | decoding the remaining ranks keeps every bit already placed and the status word |
| Fen.RankPlaces | src/chess_board.rs:386-429 | the letter at position k of a rank lands on bit (7 - i) * 8 + 7 - (the width of the characters before it) |
| Fen.PlacePiecesPlaces | src/chess_board.rs:384-430 | every piece letter of every rank lands on its bit of its colour and kind masks |
| Fen.RankPiecePlaced | src/chess_board.rs:384-430 | a letter of the current rank of the rank loop is placed and kept by the later ranks |
| Fen.WidthPositive | src/chess_board.rs:388-427 | every digit or letter advances the file by at least one |
| Fen.PrefixStep | src/chess_board.rs:386 | the width of a prefix one character longer adds that character's width |
| Fen.FitsStep | src/chess_board.rs:386-427 | a rank fits from file j exactly when its first character does and the rest fits from the advanced file |
| Fen.ParseRankIff | src/chess_board.rs:386-429 | a rank decodes exactly when every character is a digit or a piece letter and no letter's file runs past the room the subtraction leaves |
| Fen.WellFormedRankParses | src/chess_board.rs:386-429 | a rank of digits and letters of total width at most 8 always decodes |
| Fen.WidthSplit | src/chess_board.rs:386-427 | the width of a rank is the width of a prefix plus the width of the rest |
| Fen.EnPassantField | src/chess_board.rs:457-467 | '-' gives no target; otherwise, checked byte by byte in the source's order, a missing byte is the out-of-bounds error, a file past h or a rank below 1 the subtraction-overflow error, a row other than 2 or 5 or a column past 7 is the "not valid" error, and the value is row * 8 + column below 48 |
| Fen.EnPassantFieldIff | src/chess_board.rs:457-467 | the field is accepted exactly when it is '-' or a file a-h followed by rank 3 or 6, and the value is then (rank - 1) * 8 + ('h' - file) |
| Fen.LowStatusBits | src/chess_board.rs:432-454 | the castling letters and the side set exactly their own status bits |
| Fen.OrEnPassantLow | src/chess_board.rs:466 | ORing the target into bits 5-10 does not disturb bits 0-4 |
| Fen.OrEnPassantSentinel | src/chess_board.rs:466 | after ORing into a clear field, the field reads all ones exactly when the index's low six bits are |
| Fen.OrEnPassantField | src/chess_board.rs:466 | after ORing into a clear field, the field reads the index's low six bits |
| Fen.LowStatusNoTarget | src/chess_board.rs:457 | with no target ('-') the 6-bit field stays 0 |
| Fen.FenStatusFields | src/chess_board.rs:432-467 | the decoded status reads: castling rights as the letters present, the side as w or b, the target as decoded or 0 for '-' |
| Fen.ParseFenAccepts | src/chess_board.rs:367-480 | decoding succeeds only on six fields, eight ranks of digits and piece letters, side w or b and an en-passant field that is '-' or a file with rank 3 or 6 |
| Fen.RanksParse | src/chess_board.rs:384-430 | each rank of a decoded placement field is made of digits and piece letters |
| Fen.ParseFenPlaces | src/chess_board.rs:384-430 | each piece letter of a decoded placement field is on its bit (7 - i) * 8 + 7 - j of its colour and kind masks |
| Fen.StepOnlyPlaces | src/chess_board.rs:392-426 | one character's step adds to a colour or kind mask only the bit of a piece letter of that colour or kind |
| Fen.ParseRankOnlyPlaces | src/chess_board.rs:386-429 | every bit a rank adds to a colour or kind mask is the bit of one of its piece letters of that colour or kind |
| Fen.PlacePiecesOnlyPlaces | src/chess_board.rs:384-430 | every bit the ranks add to a colour or kind mask is the bit of a piece letter of that colour or kind |
| Fen.ParseFenBoard | src/chess_board.rs:367-430 | a decoded text has eight ranks, and its masks are those of the placement loop |
| Fen.LetterIsPlaced | src/chess_board.rs:384-430 | a piece letter of a decoded text is on its bit of the mask of its colour and of its kind |
| Fen.ParseFenMasksExact | src/chess_board.rs:367-430 | a bit is in a colour or kind mask of a decoded text exactly when a piece letter of that colour or kind stands on it: no mask holds a bit that no letter put there |
| Fen.ParseFenFields | src/chess_board.rs:432-467 | the decoded status fields are those the side, castling and en-passant fields say |
| Fen.DecodeRank | src/chess_board.rs:385-429 | the loop over one rank's characters computes the specification's rank decoding, error for error |
| Fen.DecodeEnPassant | src/chess_board.rs:457-467 | the method computes the specification's en-passant decoding, error for error |
| Fen.DecodeStatus | src/chess_board.rs:432-467 | the method computes the specification's status word from the side, castling and en-passant fields, error for error |
| Fen.FromStr | src/chess_board.rs:367-480 | `from_str` with its local masks and status computes exactly the specification's decoding, including every panic as an error |

## Left out

- Pretty-printing (`Display` implementations), board evaluation, perft counting, the engine loop and the program entry point are not part of this model.
- The piece masks are modelled as sets of bit indices. A `u64` mask is the set of its one bits, so `1 << i` is `{i}`, `&` is intersection, `|` is union and `& !` is difference. The status word stays a 64-bit bit-vector.
- `for_each_piece` takes a closure in the source. It is modelled as the list of `(index, piece)` calls it would make, in index order, and the generators run over that list.
- The FEN decoder's regular-expression pre-check is modelled as a predicate over the characters of the text, not as a regular expression. The text is a sequence of characters, not UTF-8 bytes.
- Rust panics and debug-mode overflow panics are modelled as `Err` or `None` results, with the source's message where one is given, except for the panics of `at` and `set_at` below, which preconditions exclude. Unwinding is not modelled.
- Board.Position.At: the `unreachable!` for a bit in a colour mask but in no kind mask, and the shift overflow of `1 << index` for an index of 64 or more, are excluded by its precondition (0 <= index < 64 and the bit decodable), not modelled as errors. The callers that need it establish that every colour bit has a kind (ColorImpliesKind).
- `usize`, `u8` and `i8` casts are written out where the source relies on them (the `i8` index cast, truncating division and remainder, `u8` subtraction in the FEN decoder). Board.ApplyDeltaWithDist: overflow of the `i8` product `delta * dist` is not modelled, because every caller stops at a distance below 24, where the product fits.
- `set_at` with an index of 64 or more overflows the shift in the source. The model excludes it by a precondition on the class method, and the FEN decoder reports it as an error.
- The helpers of the 2-D files (`at(i, j)`, `maybe_piece_at(i, j)`, `within_bounds_and_empty(i, j)`, `within_bounds_and_occupied_by_opponent(i, j, color)`, `contains_piece_in_any_direction(i, j, ...)`, `king_directions()`), their `Move` record of two (row, column) pairs with its `to_uci_string` (called by the legacy filter at src/valid_moves.rs:177), and the module `crate::moves_generation_utils` are not part of this model. Grid defines the 2-D helpers on the bitboard position through (i, j) <-> i * 8 + j: `Grid.GridMove` stands for the record, and `Grid.GridUciString` takes its text to be the UCI text of the index move (`Grid.IndexMove`). The newer generator uses the attack tests of checked_squares_utils.rs.
- `at_2` and `set_at_2` (src/chess_board.rs:183-186 and 227-230) are `row * 8 + col` wrappers over `at` and `set_at` that no modelled file calls. They are not modelled as members of their own; `Grid.IndexOf` gives the same mapping for Board.Position.At and Board.Position.SetAt.
- The legality filters mutate a cloned board. The model allocates a fresh `ChessBoard` from the position, applies the move to it, and tests it. Positions are values, so the caller's board is never aliased.
- No end-to-end castling lemma joins the generator to move application, because the two files use different king squares.
- The commented-out read-back check after setting the en-passant target (src/chess_board.rs:336-337) is not modelled as a check. The read-back property is proved instead (Board.SetEnPassantTarget): it holds for every target other than 63, which reads back as none.
- A FEN en-passant field of `-` stores 0 in the status word, which reads back as square 0. A target of 63 reads back as none. Both are modelled as written.
- `is_stalemate` is a placeholder in the source that answers whether only kings remain on the board. It is modelled as written, and no real stalemate rule is stated.
