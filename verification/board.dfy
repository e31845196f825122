/** Shared vocabulary of the engine: squares, the twelve piece bitboards and
    the chessboard state that the FEN parsers fill in and the move generator
    reads.

    A square is an index a1 = 0 ... h8 = 63 with file = square % 8 and
    row = square / 8. A u64 bitboard is modelled as the set of the indices of
    its set bits. */
module Board {

  datatype Option<T> = None | Some(value: T)

  /** What a Rust function call ends in: a returned value, or a panic
      (an arithmetic or shift overflow in a debug build, or an explicit panic!). */
  datatype Outcome<T> = Returned(value: T) | Panicked

  newtype u8 = x: int | 0 <= x < 256

  predicate OnBoard(sq: int) { 0 <= sq < 64 }

  /** The row (0 for rank 1) and the file (0 for the a-file) of a square. */
  function Row(sq: int): int { sq / 8 }

  function File(sq: int): int { sq % 8 }

  function Abs(x: int): int { if x < 0 then -x else x }

  /** The twelve piece glyphs, upper case for White, in the order in which the
      bitboards are consulted to answer which piece stands on a square. */
  const Glyphs: string := "prbkqnPRBKQN"

  /** One of the twelve piece glyphs. */
  predicate IsGlyph(c: char) {
    c == 'p' || c == 'r' || c == 'b' || c == 'k' || c == 'q' || c == 'n' ||
    c == 'P' || c == 'R' || c == 'B' || c == 'K' || c == 'Q' || c == 'N'
  }

  /** The twelve bitboards of a chessboard, one per piece glyph. */
  datatype Bitboards = Bitboards(
    blackPawns: set<int>, blackRooks: set<int>, blackBishops: set<int>,
    blackKing: set<int>, blackQueen: set<int>, blackKnights: set<int>,
    whitePawns: set<int>, whiteRooks: set<int>, whiteBishops: set<int>,
    whiteKing: set<int>, whiteQueen: set<int>, whiteKnights: set<int>)

  const NoPieces: Bitboards := Bitboards({}, {}, {}, {}, {}, {}, {}, {}, {}, {}, {}, {})

  /** The bitboard of a glyph; no squares for a character that is not one. */
  function Mask(b: Bitboards, glyph: char): set<int> {
    match glyph
    case 'p' => b.blackPawns
    case 'r' => b.blackRooks
    case 'b' => b.blackBishops
    case 'k' => b.blackKing
    case 'q' => b.blackQueen
    case 'n' => b.blackKnights
    case 'P' => b.whitePawns
    case 'R' => b.whiteRooks
    case 'B' => b.whiteBishops
    case 'K' => b.whiteKing
    case 'Q' => b.whiteQueen
    case 'N' => b.whiteKnights
    case _ => {}
  }

  /** `bitboard |= 1 << sq` on the glyph's bitboard; any other character
      changes nothing. */
  function AddSquare(b: Bitboards, glyph: char, sq: int): (r: Bitboards)
    ensures forall g :: Mask(r, g) == if g == glyph && IsGlyph(g) then Mask(b, g) + {sq} else Mask(b, g)
  {
    match glyph
    case 'p' => b.(blackPawns := b.blackPawns + {sq})
    case 'r' => b.(blackRooks := b.blackRooks + {sq})
    case 'b' => b.(blackBishops := b.blackBishops + {sq})
    case 'k' => b.(blackKing := b.blackKing + {sq})
    case 'q' => b.(blackQueen := b.blackQueen + {sq})
    case 'n' => b.(blackKnights := b.blackKnights + {sq})
    case 'P' => b.(whitePawns := b.whitePawns + {sq})
    case 'R' => b.(whiteRooks := b.whiteRooks + {sq})
    case 'B' => b.(whiteBishops := b.whiteBishops + {sq})
    case 'K' => b.(whiteKing := b.whiteKing + {sq})
    case 'Q' => b.(whiteQueen := b.whiteQueen + {sq})
    case 'N' => b.(whiteKnights := b.whiteKnights + {sq})
    case _ => b
  }

  /** The squares of one colour (White when `white`). */
  function Side(b: Bitboards, white: bool): set<int> {
    if white then
      b.whitePawns + b.whiteRooks + b.whiteKnights + b.whiteBishops + b.whiteQueen + b.whiteKing
    else
      b.blackPawns + b.blackRooks + b.blackKnights + b.blackBishops + b.blackQueen + b.blackKing
  }

  /** The first glyph of `glyphs` whose bitboard holds `sq`. */
  function FirstHolder(b: Bitboards, glyphs: string, sq: int): (r: Option<char>)
    ensures r.None? <==> forall i :: 0 <= i < |glyphs| ==> sq !in Mask(b, glyphs[i])
    ensures r.Some? ==> r.value in glyphs && sq in Mask(b, r.value)
  {
    if glyphs == [] then None
    else if sq in Mask(b, glyphs[0]) then Some(glyphs[0])
    else
      var r := FirstHolder(b, glyphs[1..], sq);
      assert forall i :: 1 <= i < |glyphs| ==> glyphs[i] == glyphs[1..][i - 1];
      r
  }

  /** The glyph of the piece on `sq`, if any. */
  function GlyphAt(b: Bitboards, sq: int): (r: Option<char>)
    ensures r.Some? ==> IsGlyph(r.value) && sq in Mask(b, r.value)
  {
    var r := FirstHolder(b, Glyphs, sq);
    assert forall g :: IsGlyph(g) <==> g in Glyphs by {
      assert Glyphs == ['p', 'r', 'b', 'k', 'q', 'n', 'P', 'R', 'B', 'K', 'Q', 'N'];
    }
    r
  }

  /** Only the twelve glyphs have bitboards. */
  lemma MaskOfNonGlyph(b: Bitboards, c: char)
    requires !IsGlyph(c)
    ensures Mask(b, c) == {}
  {}

  /** The twelve bitboards determine the board. */
  lemma MasksDetermine(a: Bitboards, b: Bitboards)
    requires forall g :: IsGlyph(g) ==> Mask(a, g) == Mask(b, g)
    ensures a == b
  {
    assert Mask(a, 'p') == Mask(b, 'p') && Mask(a, 'r') == Mask(b, 'r') && Mask(a, 'b') == Mask(b, 'b');
    assert Mask(a, 'k') == Mask(b, 'k') && Mask(a, 'q') == Mask(b, 'q') && Mask(a, 'n') == Mask(b, 'n');
    assert Mask(a, 'P') == Mask(b, 'P') && Mask(a, 'R') == Mask(b, 'R') && Mask(a, 'B') == Mask(b, 'B');
    assert Mask(a, 'K') == Mask(b, 'K') && Mask(a, 'Q') == Mask(b, 'Q') && Mask(a, 'N') == Mask(b, 'N');
  }

  /** Every piece stands on the board and no square holds two pieces. */
  ghost predicate Consistent(b: Bitboards) {
    && (forall g, sq :: sq in Mask(b, g) ==> OnBoard(sq))
    && (forall g, h, sq :: sq in Mask(b, g) && sq in Mask(b, h) ==> g == h)
  }

  /** On a consistent board a bitboard holds a square exactly when its glyph
      is the piece shown there. */
  lemma ConsistentGlyphAt(b: Bitboards, g: char, sq: int)
    requires Consistent(b)
    ensures sq in Mask(b, g) <==> OnBoard(sq) && GlyphAt(b, sq) == Some(g)
  {
    if sq in Mask(b, g) {
      if !IsGlyph(g) {
        MaskOfNonGlyph(b, g);
      }
      assert g in Glyphs;
      var i :| 0 <= i < |Glyphs| && Glyphs[i] == g;
      assert GlyphAt(b, sq).Some?;
    }
  }

  /** The chessboard: the twelve bitboards, castling rights as a 4-bit set
      (K = 8, Q = 4, k = 2, q = 1), the en-passant field (0 for none, else
      1 + the square index) and the side to move. */
  class Chessboard {
    var pieces: Bitboards
    var castlingRights: bv8
    var enPassant: u8
    var whiteTurn: bool

    function PieceAt(sq: int): Option<char> reads this { GlyphAt(pieces, sq) }

    function OneSidePieces(white: bool): set<int> reads this { Side(pieces, white) }

    function BothSidePieces(): set<int> reads this { Side(pieces, true) + Side(pieces, false) }

    /** Empties the twelve bitboards. */
    method Clear()
      modifies this
      ensures pieces == NoPieces
      ensures castlingRights == old(castlingRights) && enPassant == old(enPassant)
      ensures whiteTurn == old(whiteTurn)
    {
      pieces := NoPieces;
    }
  }
}
