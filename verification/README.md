# KnO3 chess engine core in Dafny

This project models three parts of the KnO3 chess engine and proves
properties about them:

- **Pseudo-legal move generation** (`engine/src/move_generation.rs`).
  - `move_until_piece` is the ray scan.
  - `possible_moves` dispatches on the piece letter.
  - There is one generator each for the pawn, rook, bishop, queen, king and knight.
- **The FEN field codec** (`src/fen_util.rs`). FEN is the Forsyth–Edwards Notation.
  - `place_pieces` parses the piece-placement field and `get_fen_placement` writes it.
  - `valid_fen` and `unique_chars` do the structural checks after the regular expression.
  - `get_fen_castles` and `parse_castling_rights` encode and decode the castling rights.
  - `get_fen_passant` and `parse_en_passant` encode and decode the en-passant field.
  - `parse_whose_turn` sets the side to move.
- **The geometric legality predicates** `legal_pawn` … `legal_knight` (`src/board/piece.rs`).

Squares are indices a1 = 0 … h8 = 63, with file `sq % 8` and row `sq / 8`. A
u64 bitboard is the set of its set-bit indices.

## Layout

| file | module | contents |
|---|---|---|
| `board.dfy` | `Board` | The twelve bitboards (`Bitboards`, one field per piece glyph). The `Chessboard` class, whose fields the parsers update. `Outcome`, which models a Rust panic as a result value. |
| `ranges.dfy` | `Ranges` | The Rust range iterators `lo..hi`, `.rev()` and `.step_by(n)`, as sequences, with their closed forms. |
| `move_generation.dfy` | `MoveGeneration` | The generators as written. They are methods that only read the board. Most are proved equal to a specification function, and lemmas state what that function gives. `KnightMoves` and its loop `VisitKnightOffsets` are proved duplicate-free and equal as a set to `KnightTargets`, because the source's HashSet fixes no order. |
| `move_findings.dfy` | `MoveFindings` | Corrected generators with their intended properties proved, next to concrete positions where the code as written disagrees. |
| `initial_position.dfy` | `InitialPosition` | What the as-written generators give on the opening position used by the in-file tests. |
| `fen_util.dfy` | `FenUtil` | The FEN parsers and checks as methods on `Chessboard` or strings, the serialisers, and their round trips. |
| `piece.dfy` | `Piece` | The legality predicates with Rust's truncating `/` and `%`, their exact meaning on the board, and the corrected queen, king and knight tests. |

The model follows the code as written. Where the code and its in-file tests
disagree, the model does what the code does, and a lemma states the
difference (see "Findings").

## Model

| member | source | states |
|---|---|---|
| Board.AddSquare | src/fen_util.rs:21-37 | `\|= position` on a glyph's bitboard adds the square to that glyph's set and leaves the other eleven unchanged. A character that is not a glyph changes nothing. |
| Board.GlyphAt | engine/src/move_generation.rs:26-29 | A piece reported on a square is one of the twelve glyphs, and that glyph's bitboard holds the square. |
| Board.ConsistentGlyphAt | src/fen_util.rs:132 | On a board where no square holds two pieces, a glyph's bitboard holds a square exactly when the piece reported there is that glyph. |
| Board.Chessboard.Clear | src/fen_util.rs:12 | Empties the twelve bitboards and keeps the other fields. |
| MoveGeneration.RayScanStopsAtFirstPiece | engine/src/move_generation.rs:8-23 | The scan returns a prefix of the range, in order. No returned square holds an own piece. Only the last returned square may hold an opponent piece. It stops early only before an own piece or right after an opponent piece. |
| MoveGeneration.RayScanReach | engine/src/move_generation.rs:8-23 | Square k of the range is returned exactly when it holds no own piece and no earlier square of the range holds a piece of either side. |
| MoveGeneration.MoveUntilPiece | engine/src/move_generation.rs:8-23 | The loop with its two `break`s returns that scan of the range. |
| MoveGeneration.Classify | engine/src/move_generation.rs:31-40 | Gives no kind exactly for a character outside `prnbqkPRNBQK`. Otherwise the kind is the one named by the lower-case letter, and the piece is White exactly when the letter is upper case. |
| MoveGeneration.PossibleMoves | engine/src/move_generation.rs:25-43 | `None` for an empty square or an unknown glyph. Otherwise, the result of the generator for the glyph's kind, with the colour read from its case; a panic is passed on. |
| MoveGeneration.RookRayForms | engine/src/move_generation.rs:80-92 | The four rook ranges in closed form, as arithmetic sequences. The downward one is the multiples of 8 below the origin, nearest first. |
| MoveGeneration.RookRayGeometry | engine/src/move_generation.rs:80-92 | Every ray square is on the board and is not the origin. The left and right rays stay on the origin's row and the up ray on its file. The down ray lies on the a-file. |
| MoveGeneration.RookMoves | engine/src/move_generation.rs:78-95 | The result is the scans of the left, right, up and down rays, concatenated in that order. |
| MoveGeneration.NwRayForm | engine/src/move_generation.rs:101-108 | The north-west range is from + 7, from + 14, …, up to `min(56, from + rank * 7)`. |
| MoveGeneration.NeRayForm | engine/src/move_generation.rs:105-110 | The north-east range is from + 9, from + 18, …, up to `min(63, from + inv_rank * 9)`. |
| MoveGeneration.SwRayForm | engine/src/move_generation.rs:102-109 | Without underflow, the south-west range is from − 1, from − 10, …, with `from % 8` squares. |
| MoveGeneration.SeRayForm | engine/src/move_generation.rs:106-111 | Without underflow, the south-east range is from − 1, from − 8, …, down to `max(7, from - inv_rank * 7)`. |
| MoveGeneration.BishopRayGeometry | engine/src/move_generation.rs:100-111 | All four rays stay on the board. The north-west and north-east rays are true diagonals, one row and one file per step. The south-west and south-east rays start at `from - 1`. |
| MoveGeneration.BishopMoves | engine/src/move_generation.rs:97-119 | Panics exactly when `from - rank * 9` or `from - inv_rank * 7` underflows. Otherwise the result is the scans of the NW, SW, NE and SE rays, in that order. |
| MoveGeneration.QueenMoves | engine/src/move_generation.rs:121-125 | Panics exactly when the bishop does. Otherwise the result is the rook moves followed by the bishop moves from the same origin. |
| MoveGeneration.OffsetTargetsExact | engine/src/move_generation.rs:133-140 | At most one target per offset. Each target is on the board, is not own-occupied and is an offset away. Every such square is a target. |
| MoveGeneration.KingMoves | engine/src/move_generation.rs:128-143 | The targets are `from + d` for d in the order −1, 1, −7, 7, −8, 8, −9, 9, kept when on the board and not own-occupied. There are at most 8. |
| MoveGeneration.SecondBandExclusionsEmpty | engine/src/move_generation.rs:159-181 | `south − horz`, `north − horz`, `west − vert` and `east − vert` are all empty, so the second-row and second-file exclusions remove nothing. |
| MoveGeneration.KnightMoves | engine/src/move_generation.rs:145-192 | No target repeats. A square is a target exactly when it is on the board, not own-occupied, and one of the offsets left after the edge exclusions away from the origin. |
| MoveGeneration.VisitKnightOffsets | engine/src/move_generation.rs:183-191 | The loop over the surviving offsets gives each on-board, not own-occupied target exactly once. |
| MoveGeneration.KeepOnBoardMembership | engine/src/move_generation.rs:74 | The `retain` keeps exactly the squares 0..63 of its input. |
| MoveGeneration.KeepOnBoardIdentity | engine/src/move_generation.rs:74 | The `retain` leaves a sequence of on-board squares unchanged. |
| MoveGeneration.PawnOutcomeExact | engine/src/move_generation.rs:46-76 | Panics exactly when the forward square is off the board, or when the double-step square is off the board after a push from file index 1 (White) or 6 (Black). Otherwise every target is on the board. The push is a target exactly when the forward square is occupied. The double step is a target exactly when the push is, the file index is the initial one and the double-step square is occupied. A diagonal is a target exactly when it is on the board and holds an opponent piece. |
| MoveGeneration.PawnMoves | engine/src/move_generation.rs:46-76 | The method returns that outcome. |
| MoveFindings.PawnIntendedMoves | engine/src/move_generation.rs:46-76 | The corrected pawn generator gives exactly the intended moves: a push onto an empty square; a double step from the second row over two empty squares; a capture one row forward and one file over. |
| MoveFindings.PawnPushNeedsBlocker | engine/src/move_generation.rs:59-65 | On an empty board, a white pawn on b2 is given no move, though b3 is a pawn move. The corrected generator gives b3 and b4. |
| MoveFindings.PawnDoubleStepByFile | engine/src/move_generation.rs:48-63 | A white pawn on b3 with b4 and b5 occupied is given b5, which is not a pawn move. |
| MoveFindings.PawnLastRowPanics | engine/src/move_generation.rs:59 | A white pawn on b8 panics (overflow-checked build). The corrected generator gives no move. |
| MoveFindings.PawnCaptureWraps | engine/src/move_generation.rs:55-71 | A white pawn on a2 captures on h2, which is not a pawn move. |
| MoveFindings.DownRayIntendedGeometry | engine/src/move_generation.rs:89-92 | The corrected downward ray walks the origin's file one row at a time. It holds exactly the squares of that file below the origin. |
| MoveFindings.RookIntendedOnLines | engine/src/move_generation.rs:78-95 | Every corrected rook target is another square of the origin's row or file, and is not own-occupied. |
| MoveFindings.RookIntendedComplete | engine/src/move_generation.rs:78-95 | Completeness of the corrected rook generator: along each of the four rays, every square up to the first piece is a target, and so is that piece when it is an opponent's. |
| MoveFindings.RookDownRayOnAFile | engine/src/move_generation.rs:89-92 | From b5 the downward ray as written visits a5 … a1; the corrected one visits b4 … b1. |
| MoveFindings.DiagonalRayGeometry | engine/src/move_generation.rs:100-111 | A corrected diagonal ray steps one row and one file at a time and stays on the board. It runs to the edge: one more step would leave the board. |
| MoveFindings.BishopIntendedOnDiagonals | engine/src/move_generation.rs:97-119 | Every corrected bishop target is another square on a diagonal through the origin, and is not own-occupied. |
| MoveFindings.BishopIntendedComplete | engine/src/move_generation.rs:97-119 | Completeness of the corrected bishop generator: along each of the four diagonals, every square up to the first piece is a target, and so is that piece when it is an opponent's. |
| MoveFindings.BishopUnderflowsOnStart | engine/src/move_generation.rs:102-106 | The bounds underflow for a bishop on c1 and on c5, a panic in an overflow-checked build. The corrected generator gives the c1 bishop's seven diagonal squares on an empty board. |
| MoveFindings.BishopSouthRaysStartBeside | engine/src/move_generation.rs:109-111 | From e8, the south-west and south-east ranges as written start at d8. The corrected rays start at d7 and f7. |
| MoveFindings.BishopNorthWestCap | engine/src/move_generation.rs:97-119 | A bishop on c7 of an empty board gets b7, a6, d8, b7, c6, d5, e4, f3 from the generator as written, but never b8: the north-west range is capped at 56. The corrected north-west ray from c7 is exactly b8. |
| MoveFindings.KnightOffsetsIntendedExact | engine/src/move_generation.rs:157-181 | The corrected exclusions keep exactly the offsets that make a knight jump from the origin. |
| MoveFindings.KnightIntendedTargets | engine/src/move_generation.rs:145-192 | The corrected knight generator gives exactly the knight jumps onto squares without an own piece. |
| MoveFindings.KnightWrapsFromG1 | engine/src/move_generation.rs:177-181 | A knight on g1 is given a3, which is not a knight jump; the corrected generator does not give it. |
| InitialPosition.InitialPawnMoves | engine/src/move_generation.rs:204-207 | On the opening position, the pawn tests' squares 17, 9 and 49 give no move. Square 42 gives [50, 49, 51]. |
| InitialPosition.InitialPawnEdges | engine/src/move_generation.rs:210-215 | White from 57 and Black from 1 panic. The white pawn on 1 gives [9], and [9, 8] once a black pawn is on 8. |
| InitialPosition.InitialRookMoves | engine/src/move_generation.rs:221-222 | The rook on 0 gives []. A white rook on 33 gives [32, 34, …, 39, 41, 49, 32, 24, 16], with 32 twice. |
| InitialPosition.InitialBishopMoves | engine/src/move_generation.rs:228-229 | A bishop on 2 and one on 34 both panic. |
| InitialPosition.InitialKingMoves | engine/src/move_generation.rs:244-247 | The white king on 4 gives []. A black king on 4 gives [3, 5, 11, 12, 13]. A white king on 34 gives [33, 35, 27, 41, 26, 42, 25, 43]. |
| InitialPosition.KingTargetsInOrder | engine/src/move_generation.rs:133-140 | The king's targets are the kept squares for the eight offsets, in the order of the offsets. |
| InitialPosition.InitialKnightMoves | engine/src/move_generation.rs:235-238 | Knights give {16, 18} from 1, {16, 21, 23} from 6, all eight squares from 34, and {45, 47} from 62 for Black. |
| FenUtil.DigitChar | src/fen_util.rs:134 | `to_string` of a count of at most 9 is the one digit with that value. |
| FenUtil.SplitJoin | src/fen_util.rs:13 | Splitting at `/` the join of pieces without a `/` gives the pieces back. |
| FenUtil.JoinSplit | src/fen_util.rs:62 | Joining the pieces of a split gives the string back, and no piece contains the separator. |
| FenUtil.PlaceRowRule | src/fen_util.rs:14-39 | In one rank string, a digit advances the file index by its value and any other character advances it by one. A known letter sets the bit `8 * row + file` on its own bitboard. It panics exactly when a non-digit reaches 64 or beyond (`2_u64.pow` overflow). |
| FenUtil.PlaceRowsRule | src/fen_util.rs:13-40 | The same for the rank strings from row k on, each on its own row. |
| FenUtil.PlacementRule | src/fen_util.rs:11-41 | Starting from a cleared board, the last `/`-field goes on row 0. A bitboard holds exactly the squares where the field's text puts its glyph. It panics exactly when some field overflows. |
| FenUtil.PlacementOnBoard | src/fen_util.rs:21 | Every placed square is on the board. |
| FenUtil.PlacePieces | src/fen_util.rs:11-41 | The nested loops leave the bitboards of the placement rule, or panic as it says. The other fields are kept. |
| FenUtil.PlaceRank | src/fen_util.rs:14-38 | The inner loop over one rank string either panics exactly when the placement rule for that row panics, or leaves the bitboards that rule gives; castling rights, en passant square and turn are kept. |
| FenUtil.WellFormedRankRules | src/fen_util.rs:70-91 | A rank is well formed exactly when every character is a digit, `~` or a piece letter; no digit follows a digit; and every `~` follows a piece letter. |
| FenUtil.ScanRank | src/fen_util.rs:66-94 | The per-rank loop accepts exactly the well-formed ranks whose digits plus letters count 8. |
| FenUtil.UniqueChars | src/fen_util.rs:105-113 | True exactly when no character occurs twice. |
| FenUtil.ValidFen | src/fen_util.rs:62-101 | After the regular expression, accepts exactly when the placement has 8 ranks, each valid, and the castling field has no repeated character. |
| FenUtil.EncodeRankOf | src/fen_util.rs:127-144 | The file loop writes the rank's encoding: pieces as their glyphs, and runs of empty squares as their length. |
| FenUtil.GetFenPlacement | src/fen_util.rs:124-150 | The result is the 8 rank encodings, rank 8 first, joined by `/` (the last `/` is popped). |
| FenUtil.EncodeRankShape | src/fen_util.rs:127-144 | An encoded rank holds only digits and piece letters, no two adjacent digits, and counts 8 squares. |
| FenUtil.SerialisedPlacementValid | src/fen_util.rs:124-150 | The written placement splits back into its 8 rank strings, and each passes the rank check of valid_fen. |
| FenUtil.PlacementRoundTrip | src/fen_util.rs:11-150 | Parsing the written placement never panics. A bitboard then holds exactly the squares where the original board shows that glyph. |
| FenUtil.MaskRoundTrip | src/fen_util.rs:11-150 | On a board with one piece per square, every bitboard comes back unchanged. |
| FenUtil.PlacementRoundTripExact | src/fen_util.rs:11-150 | On a board with one piece per square, `place_pieces(get_fen_placement(b))` gives `b` back. |
| FenUtil.ExpandPuts | src/fen_util.rs:14-38 | In a rank string of digits and piece letters, the inner loop puts a glyph exactly on the squares of the described cells that hold it. A digit d stands for d empty cells. |
| FenUtil.ExpandFits | src/fen_util.rs:21 | A rank string whose cells end on the board never reaches the `2_u64.pow` overflow. |
| FenUtil.EncodeExpand | src/fen_util.rs:127-144 | Take a rank string of piece letters and digits 1–8, with no digit right after a digit. The file loop, run on the cells that string describes, writes the same string back. |
| FenUtil.RowsPutCell | src/fen_util.rs:13-39 | Among eight accepted rank strings, a glyph lands on file j of row r exactly when cell j of rank string r holds it. |
| FenUtil.ParsedCell | src/fen_util.rs:11-41 | For a placement field that valid_fen accepts, place_pieces does not panic. The piece it leaves on file j of row r is cell j of that row's rank string. |
| FenUtil.PlacementParseThenWrite | src/fen_util.rs:11-150 | Take a placement field that valid_fen accepts (lines 54 and 62-95): eight rank strings of `[rnbqkpRNBQKP1-8]`, each well formed and counting 8 squares. `place_pieces` does not panic on it, and `get_fen_placement` then writes exactly the same field back. |
| FenUtil.SerialisedFieldsValid | src/fen_util.rs:62-176 | The written placement and castling fields pass the checks of valid_fen. |
| FenUtil.ParseCastlingRights | src/fen_util.rs:219-231 | The castling rights become the OR of the letters' bits: K = 8, Q = 4, k = 2, q = 1, anything else 0. The other fields are kept. |
| FenUtil.CastlingBitsMembership | src/fen_util.rs:219-231 | The parsed rights use the low four bits only. A letter's bit is set exactly when the letter occurs in the field. |
| FenUtil.KeptRightsMembership | src/fen_util.rs:164-173 | The filter keeps a letter exactly when the letter's bit is set in the state. |
| FenUtil.KeptRightsOrdered | src/fen_util.rs:164-173 | The filter keeps the letters in their order. |
| FenUtil.NoneKept | src/fen_util.rs:175 | Nothing is kept exactly when the low four bits are clear. |
| FenUtil.GetFenCastlesShape | src/fen_util.rs:162-176 | The field is `-` exactly when the low four bits are clear. Otherwise it holds exactly the letters whose bits are set, in `KQkq` order. |
| FenUtil.CastlesRoundTrip | src/fen_util.rs:162-231 | Parsing the written castling field restores the low four bits of the state. |
| FenUtil.KeptRightsOfField | src/fen_util.rs:164-231 | Filtering castling letters by the rights parsed from a field keeps exactly the letters the field contains, in filter order. |
| FenUtil.OrderedLettersUnique | src/fen_util.rs:164-173 | Two strings of castling letters, both in `KQkq` order and with the same letters, are equal. The written field is determined by its letters. |
| FenUtil.CastlesParseThenWrite | src/fen_util.rs:162-231 | Writing the rights parsed from any field gives the field's castling letters, each once, in `KQkq` order, or `-` when there is none. A letter appears in the output exactly when it appears in the field. A non-empty field of castling letters already in `KQkq` order comes back unchanged. |
| FenUtil.SerialisedCastlesUnique | src/fen_util.rs:97-113 | The written castling field passes `unique_chars`. |
| FenUtil.GetFenPassant | src/fen_util.rs:189-201 | Panics exactly when the field is above 64. Writes `-` for 0, and otherwise an upper-case file letter A–H followed by a rank digit 1–8. |
| FenUtil.ColValue | src/fen_util.rs:246-256 | A file letter's column value is at most 8. |
| FenUtil.PassantAfter | src/fen_util.rs:240-262 | The field becomes at most 64 or stays unchanged. It stays unchanged when the second character is a digit outside 1..8. It becomes 0 when there is no second character that is a digit. |
| FenUtil.ParseEnPassant | src/fen_util.rs:240-262 | The field becomes that value, and the other fields are kept. |
| FenUtil.PassantRoundTrip | src/fen_util.rs:189-262 | For every value 0..64, `get_fen_passant` returns, and parsing its output gives the value back. |
| FenUtil.PassantWrittenUpperCase | src/fen_util.rs:189-201 | For the square e3 the writer gives `E3`, which the en-passant group `(-\|[a-h][1-8])` of valid_fen's regular expression rejects. |
| FenUtil.PassantIntendedRoundTrip | src/fen_util.rs:233-262 | For every value 0..64, the corrected lower-case writer returns a field that the en-passant group accepts, and parsing it gives the value back. |
| FenUtil.ParseWhoseTurn | src/fen_util.rs:209-211 | White moves next exactly when the field is `"w"`. The other fields are kept. |
| Piece.TMod | src/board/piece.rs:17 | i64 `%`: the remainder is smaller than the divisor in size and has the sign of the dividend (0 or positive for a non-negative dividend, 0 or negative for a negative one). |
| Piece.TDiv | src/board/piece.rs:17 | i64 `/`: quotient times divisor plus the TMod remainder gives back the dividend. |
| Piece.TruncationUnique | src/board/piece.rs:17 | Any quotient and remainder that rebuild the dividend, with the remainder's size and sign as above, are TDiv and TMod, so the two contracts pin down truncating division. |
| Piece.TruncationIsOdd | src/board/piece.rs:17 | Negating the dividend negates both quotient and remainder, which is what truncation toward zero means and Euclidean division does not do. |
| Piece.LegalRookOnBoard | src/board/piece.rs:16-18 | On the board, the rook test holds exactly for the same file or the same row. |
| Piece.SameColour | src/board/piece.rs:21-24 | The colour test holds exactly when the row and file differences sum to an even number. |
| Piece.LegalBishopOnBoard | src/board/piece.rs:20-30 | On the board, the bishop test holds exactly for squares on a common diagonal, including the square itself. |
| Piece.LegalQueenOnBoard | src/board/piece.rs:40-42 | On the board, the conjunction holds only from a square to itself. |
| Piece.LegalQueenIntendedOnBoard | src/board/piece.rs:40-42 | The corrected queen test holds exactly for a common file, row or diagonal. |
| Piece.QueenConjunctionRejectsRookMove | src/board/piece.rs:40-42 | a1 to a2 fails the written queen test and passes the corrected one. |
| Piece.LegalKingDistance | src/board/piece.rs:32-38 | The king test holds exactly for a distance of 1, 7, 8 or 9, so never from a square to itself. |
| Piece.LegalKingIntendedExact | src/board/piece.rs:32-38 | On the board, the corrected king test is the written one restricted to files at most one apart. |
| Piece.KingWrapsAround | src/board/piece.rs:32-38 | h1 to a2 passes the written king test but is not a king step. |
| Piece.LegalKnightDistance | src/board/piece.rs:44-50 | The knight test holds exactly for a distance of 6, 10, 15 or 17. |
| Piece.LegalKnightIntendedExact | src/board/piece.rs:44-50 | On the board, the corrected knight test is the written one restricted to files one or two apart. |
| Piece.KnightWrapsAround | src/board/piece.rs:44-50 | a1 to g1 passes the written knight test but is not a knight jump. |
| Piece.RankTwoSquares | src/board/piece.rs:4-6 | `square_to_rank` is 2 exactly on squares 8..15 and 7 exactly on 48..55. |
| Piece.LegalPawnSteps | src/board/piece.rs:3-14 | The pawn test holds for one row forward from anywhere. It holds for two rows forward only from squares 8..15 (White) or 48..55 (Black), and for nothing else. |

## Left out

- The regular expression at src/fen_util.rs:54 and `split_whitespace().nth(2)` at line 97 are not modelled. `FenUtil.ValidFen` takes the placement capture and the castling field as its inputs.
- Helpers the core calls but whose source is not shown are modelled on assumed conventions:
  - `piece_at_position` answers with the first glyph, in the order `prbkqnPRBKQN`, whose bitboard holds the square.
  - `one_side_pieces` and `both_side_pieces` are unions of bitboards.
  - `clear` empties the twelve bitboards only.
  - `rank_file_to_square` gives 8 × (rank − 1) + file.
  - `square_to_rank` gives sq / 8 + 1.
  - `GameState::new` sets up the standard opening position.
- Rust panics are results (`Outcome.Panicked`), not behaviour. The panicking cases are the `1 << forward` shift overflow, the u8 subtractions of the bishop bounds, the `2_u64.pow` overflow, and the explicit panic of `get_fen_passant`.
- Overflow semantics: the model follows an overflow-checked build (the debug and test profiles), where the shift, the u8 subtractions and `2_u64.pow` panic. A release build wraps instead, and the model does not describe that:
  - `1 << 65` shifts by 65 mod 64 = 1. For the white pawn on b8 of the opening position, this pushes 65 and 73, which the `retain` at engine/src/move_generation.rs:74 drops, so the result is `[]`.
  - `2 - 18` and `2 - 35` wrap to 240 and 223, so the bishop on c1 of the opening position gets empty south-west and south-east ranges and returns `[]`.
  - `2_u64.pow(64)` gives 0, so place_pieces sets no bit for a piece past square 63.
- Integer widths are not modelled beyond those panics:
  - the u32 `piece_count` of valid_fen;
  - the usize `file_ndx` of place_pieces and its `as u32` truncation;
  - i64 overflow of `to - from` and `abs` in src/board/piece.rs.
- MoveGeneration.KnightMoves: the order of the result is not stated. The source iterates a HashSet, whose order is unspecified. The model visits the offsets in a fixed order, and the contract holds for any order.
- MoveGeneration.PossibleMoves: requires an on-board square, because `piece_at_position` is not shown and its behaviour for squares 64..255 is unknown. The generators get the same precondition from their callers.
- FenUtil.EncodeRankOf: this is a helper method holding the inner file loop of get_fen_placement. It has no function of its own in the source.
- FenUtil.PlacementParseThenWrite: covers only placement fields that valid_fen accepts. A field with `0`, `9`, `~` or adjacent digits such as `44` is parsed without being written back unchanged (`44` comes back as `8`).
- FenUtil.CastlesParseThenWrite: a field with repeated or out-of-order letters, or with other characters, comes back normalised rather than unchanged. The lemma states exactly what is written for it.
- ASCII only: `is_ascii_digit` and `to_digit(10)` are the digits `'0'`–`'9'`, with no other Unicode digits.

## Findings

| source | as written | input that shows it | evidently intended | confidence | as-written member | corrected member |
|---|---|---|---|---|---|---|
| engine/src/move_generation.rs:59 | the push is emitted when the forward square is occupied | white pawn on b2, empty board: no move | push onto an empty square | high, not executed | MoveFindings.PawnPushNeedsBlocker | MoveFindings.PawnIntendedMoves |
| engine/src/move_generation.rs:48-61 | the double step is tried when `from % 8` (the file) is 1 or 6 | white pawn on b3 with b4 and b5 occupied: given b5 | double step from the second row, `from / 8` | high, not executed | MoveFindings.PawnDoubleStepByFile | MoveFindings.PawnIntendedMoves |
| engine/src/move_generation.rs:59 | `1 << forward` with forward ≥ 64 | white pawn on b8: shift overflow panic (debug/test build; the test expects []) | no move | high, not executed | MoveFindings.PawnLastRowPanics | MoveFindings.PawnIntendedMoves |
| engine/src/move_generation.rs:55-71 | the diagonals `from ± 7`, `from ± 9` have no file check | white pawn on a2, black piece on h2: captures h2 | captures on adjacent files only | high, not executed | MoveFindings.PawnCaptureWraps | MoveFindings.PawnIntendedMoves |
| engine/src/move_generation.rs:89-92 | `(0..from).step_by(8).rev()` walks the multiples of 8 | rook on b5: down ray a5 … a1 | the origin's file, b4 … b1 | high, not executed | MoveFindings.RookDownRayOnAFile | MoveFindings.DownRayIntendedGeometry |
| engine/src/move_generation.rs:102-106 | `from - rank * 9` and `from - inv_rank * 7` underflow their u8 | bishops on c1 and c5: panic (debug/test build) | bounds clamped at the board's edge | high, not executed | MoveFindings.BishopUnderflowsOnStart | MoveFindings.BishopIntendedOnDiagonals |
| engine/src/move_generation.rs:109-111 | the SW and SE ranges start at `from - 1` | bishop on e8: first square d8 | d7 and f7 | high, not executed | MoveFindings.BishopSouthRaysStartBeside | MoveFindings.DiagonalRayGeometry |
| engine/src/move_generation.rs:101 | `min(56, …)` caps the NW ray | bishop on c7, empty board: no north-west square, b8 missed | the diagonal up to the edge | medium, not executed | MoveFindings.BishopNorthWestCap | MoveFindings.DiagonalRayGeometry |
| engine/src/move_generation.rs:159-181 | the second-row and second-file exclusions remove nothing | knight on g1: given a3 | drop the two-file and two-row steps near an edge | high, not executed | MoveFindings.KnightWrapsFromG1 | MoveFindings.KnightIntendedTargets |
| src/board/piece.rs:40-42 | `legal_bishop && legal_rook` | a1 to a2: rejected | `legal_bishop \|\| legal_rook` | high, not executed | Piece.QueenConjunctionRejectsRookMove | Piece.LegalQueenIntendedOnBoard |
| src/board/piece.rs:32-38 | the king test looks only at the index distance | h1 to a2: accepted | files at most one apart | medium, not executed | Piece.KingWrapsAround | Piece.LegalKingIntendedExact |
| src/board/piece.rs:44-50 | the knight test looks only at the index distance | a1 to g1: accepted | files one or two apart | medium, not executed | Piece.KnightWrapsAround | Piece.LegalKnightIntendedExact |
| src/fen_util.rs:196 | `b'A' + col`: the file letter is written in upper case | en passant on e3: writes `E3`, which valid_fen's `[a-h][1-8]` rejects | lower case, `e3`, as parse_en_passant documents | high, not executed | FenUtil.PassantWrittenUpperCase | FenUtil.PassantIntendedRoundTrip |

The generators in `MoveGeneration` and the predicates in `Piece` model the
code as written. The corrected definitions stand beside them, in
`MoveFindings` and `Piece`, with their intended properties proved.
