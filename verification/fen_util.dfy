/** The FEN field codec of src/fen_util.rs: parsing the placement, turn,
    castling and en-passant fields into the chessboard, serialising them back,
    and the structural checks of the placement and castling fields. */
module FenUtil {
  import opened Board

  // ---------------------------------------------------------------- characters

  predicate IsDigit(c: char) { '0' <= c <= '9' }

  function DigitValue(c: char): nat
    requires IsDigit(c)
  {
    c as int - '0' as int
  }

  function DigitChar(n: nat): (c: char)
    requires n <= 9
    ensures IsDigit(c) && DigitValue(c) == n
  {
    ('0' as int + n) as char
  }

  // ---------------------------------------------------------------- split / join

  /** `s.split(sep)`: the pieces between separators, always at least one. */
  function Split(s: string, sep: char): (r: seq<string>)
    ensures |r| >= 1
    decreases |s|
  {
    if s == [] then [[]]
    else
      var rest := Split(s[1..], sep);
      if s[0] == sep then [[]] + rest else [[s[0]] + rest[0]] + rest[1..]
  }

  /** The pieces joined with `sep` between them. */
  function Join(xs: seq<string>, sep: char): string
    requires |xs| >= 1
    decreases |xs|
  {
    if |xs| == 1 then xs[0] else xs[0] + [sep] + Join(xs[1..], sep)
  }

  lemma {:induction false} SplitNoSeparator(a: string, sep: char)
    requires sep !in a
    ensures Split(a, sep) == [a]
    decreases |a|
  {
    if a != [] {
      SplitNoSeparator(a[1..], sep);
      assert [a[0]] + a[1..] == a;
    }
  }

  lemma {:induction false} SplitFirstPiece(a: string, b: string, sep: char)
    requires sep !in a
    ensures Split(a + [sep] + b, sep) == [a] + Split(b, sep)
    decreases |a|
  {
    var s := a + [sep] + b;
    if a == [] {
      assert s[1..] == b;
    } else {
      assert s[1..] == a[1..] + [sep] + b;
      SplitFirstPiece(a[1..], b, sep);
      assert [a[0]] + a[1..] == a;
    }
  }

  /** Splitting undoes joining when no piece holds the separator. */
  lemma {:induction false} SplitJoin(xs: seq<string>, sep: char)
    requires |xs| >= 1 && forall i :: 0 <= i < |xs| ==> sep !in xs[i]
    ensures Split(Join(xs, sep), sep) == xs
    decreases |xs|
  {
    if |xs| == 1 {
      SplitNoSeparator(xs[0], sep);
    } else {
      SplitJoin(xs[1..], sep);
      SplitFirstPiece(xs[0], Join(xs[1..], sep), sep);
      assert [xs[0]] + xs[1..] == xs;
    }
  }

  /** Joining undoes splitting, and no piece of a split holds the separator. */
  lemma {:induction false} JoinSplit(s: string, sep: char)
    ensures Join(Split(s, sep), sep) == s
    ensures forall i :: 0 <= i < |Split(s, sep)| ==> sep !in Split(s, sep)[i]
    decreases |s|
  {
    if s != [] {
      JoinSplit(s[1..], sep);
      var rest := Split(s[1..], sep);
      if s[0] == sep {
        assert s == [sep] + s[1..];
      } else {
        var r := Split(s, sep);
        assert r[1..] == rest[1..];
        if |rest| == 1 {
          assert s == [s[0]] + rest[0];
        } else {
          assert rest == [rest[0]] + rest[1..];
          assert Join(rest, sep) == rest[0] + [sep] + Join(rest[1..], sep);
          assert s == [s[0]] + rest[0] + [sep] + Join(rest[1..], sep);
        }
      }
    }
  }

  function Reversed<T>(s: seq<T>): (r: seq<T>)
    ensures |r| == |s| && forall i :: 0 <= i < |s| ==> r[i] == s[|s| - 1 - i]
  {
    seq(|s|, i requires 0 <= i < |s| => s[|s| - 1 - i])
  }

  // ---------------------------------------------------------------- place_pieces

  /** One rank string placed on row `row`, starting at file index `file`: a
      digit advances the file index by its value; any other character computes
      `2^(8 * row + file)`, which overflows a u64 (a panic) from 64 on, sets
      that bit on the glyph's bitboard (nothing for an unknown character) and
      advances the file index by one. */
  function PlaceRow(b: Bitboards, row: nat, s: string, file: nat): Outcome<Bitboards>
    decreases |s|
  {
    if s == [] then Returned(b)
    else if IsDigit(s[0]) then PlaceRow(b, row, s[1..], file + DigitValue(s[0]))
    else if 8 * row + file >= 64 then Panicked
    else PlaceRow(AddSquare(b, s[0], 8 * row + file), row, s[1..], file + 1)
  }

  /** The rank strings `rows[k..]` placed on rows k, k + 1, ... */
  function PlaceRows(b: Bitboards, rows: seq<string>, k: nat): Outcome<Bitboards>
    decreases |rows| - k
  {
    if k >= |rows| then Returned(b)
    else
      match PlaceRow(b, k, rows[k], 0)
      case Panicked => Panicked
      case Returned(next) => PlaceRows(next, rows, k + 1)
  }

  /** The bitboards place_pieces leaves for a placement field: the board is
      cleared, then the `/`-separated rank strings are placed from the last
      (row 0) to the first. */
  function Placement(fenRows: string): Outcome<Bitboards> {
    PlaceRows(NoPieces, Reversed(Split(fenRows, '/')), 0)
  }

  /** The file index reached before `s[i]`: each digit advances it by its
      value, any other character by one. */
  function FileBefore(s: string, i: nat): nat
    requires i <= |s|
    decreases i
  {
    if i == 0 then 0 else Advance(s[0]) + FileBefore(s[1..], i - 1)
  }

  /** `s[i]` is the glyph `g` and stands on square `sq` of row `row`. */
  ghost predicate RowPuts(s: string, row: nat, file: nat, g: char, sq: int) {
    exists i :: 0 <= i < |s| && s[i] == g && sq == 8 * row + file + FileBefore(s, i)
  }

  /** Some non-digit of `s` falls on an exponent of 64 or more. */
  ghost predicate RowOverflows(s: string, row: nat, file: nat) {
    exists i :: 0 <= i < |s| && !IsDigit(s[i]) && 8 * row + file + FileBefore(s, i) >= 64
  }

  /** The advance of the file index past one character. */
  function Advance(c: char): nat {
    if IsDigit(c) then DigitValue(c) else 1
  }

  /** A rank string overflows iff its first character does, or the rest does
      from the advanced file index. */
  lemma OverflowsShift(s: string, row: nat, file: nat)
    requires s != []
    ensures RowOverflows(s, row, file) <==>
            (!IsDigit(s[0]) && 8 * row + file >= 64) || RowOverflows(s[1..], row, file + Advance(s[0]))
  {
    var t, adv := s[1..], Advance(s[0]);
    assert FileBefore(s, 0) == 0;
    if RowOverflows(t, row, file + adv) {
      var j :| 0 <= j < |t| && !IsDigit(t[j]) && 8 * row + file + adv + FileBefore(t, j) >= 64;
      assert s[j + 1] == t[j] && FileBefore(s, j + 1) == adv + FileBefore(t, j);
    }
    if RowOverflows(s, row, file) {
      var i :| 0 <= i < |s| && !IsDigit(s[i]) && 8 * row + file + FileBefore(s, i) >= 64;
      if i > 0 {
        assert t[i - 1] == s[i] && FileBefore(s, i) == adv + FileBefore(t, i - 1);
      }
    }
  }

  /** A glyph stands on a square of a rank string iff it is the first
      character there, or it stands there in the rest from the advanced file
      index. */
  lemma PutsShift(s: string, row: nat, file: nat, g: char, sq: int)
    requires s != []
    ensures RowPuts(s, row, file, g, sq) <==>
            (s[0] == g && sq == 8 * row + file) || RowPuts(s[1..], row, file + Advance(s[0]), g, sq)
  {
    var t, adv := s[1..], Advance(s[0]);
    assert FileBefore(s, 0) == 0;
    if RowPuts(t, row, file + adv, g, sq) {
      var j :| 0 <= j < |t| && t[j] == g && sq == 8 * row + file + adv + FileBefore(t, j);
      assert s[j + 1] == t[j] && FileBefore(s, j + 1) == adv + FileBefore(t, j);
    }
    if RowPuts(s, row, file, g, sq) {
      var i :| 0 <= i < |s| && s[i] == g && sq == 8 * row + file + FileBefore(s, i);
      if i > 0 {
        assert t[i - 1] == s[i] && FileBefore(s, i) == adv + FileBefore(t, i - 1);
      }
    }
  }

  /** Placing one rank string panics exactly when a non-digit falls on an
      exponent of 64 or more; otherwise it adds to each glyph's bitboard
      exactly the squares where that glyph stands, and nothing for the other
      characters. */
  lemma {:induction false} PlaceRowRule(b: Bitboards, row: nat, s: string, file: nat)
    ensures PlaceRow(b, row, s, file).Panicked? <==> RowOverflows(s, row, file)
    ensures PlaceRow(b, row, s, file).Returned? ==> forall g, sq ::
              sq in Mask(PlaceRow(b, row, s, file).value, g) <==>
              sq in Mask(b, g) || (IsGlyph(g) && RowPuts(s, row, file, g, sq))
    decreases |s|
  {
    if s != [] {
      var t, adv := s[1..], Advance(s[0]);
      OverflowsShift(s, row, file);
      forall g, sq ensures RowPuts(s, row, file, g, sq) <==> (s[0] == g && sq == 8 * row + file) || RowPuts(t, row, file + adv, g, sq) {
        PutsShift(s, row, file, g, sq);
      }
      if IsDigit(s[0]) {
        PlaceRowRule(b, row, t, file + adv);
      } else if 8 * row + file < 64 {
        PlaceRowRule(AddSquare(b, s[0], 8 * row + file), row, t, file + 1);
      }
    }
  }

  /** Rank string `rows[r]`, for some r >= k, puts glyph `g` on `sq`. */
  ghost predicate RowsPut(rows: seq<string>, k: nat, g: char, sq: int) {
    exists r :: k <= r < |rows| && RowPuts(rows[r], r, 0, g, sq)
  }

  /** Some rank string `rows[r]`, r >= k, overflows. */
  ghost predicate RowsOverflow(rows: seq<string>, k: nat) {
    exists r :: k <= r < |rows| && RowOverflows(rows[r], r, 0)
  }

  lemma {:induction false} PlaceRowsRule(b: Bitboards, rows: seq<string>, k: nat)
    ensures PlaceRows(b, rows, k).Panicked? <==> RowsOverflow(rows, k)
    ensures PlaceRows(b, rows, k).Returned? ==> forall g, sq ::
              sq in Mask(PlaceRows(b, rows, k).value, g) <==>
              sq in Mask(b, g) || (IsGlyph(g) && RowsPut(rows, k, g, sq))
    decreases |rows| - k
  {
    if k < |rows| {
      PlaceRowRule(b, k, rows[k], 0);
      assert RowsOverflow(rows, k) <==> RowOverflows(rows[k], k, 0) || RowsOverflow(rows, k + 1);
      assert forall g, sq :: RowsPut(rows, k, g, sq) <==> RowPuts(rows[k], k, 0, g, sq) || RowsPut(rows, k + 1, g, sq);
      if PlaceRow(b, k, rows[k], 0).Returned? {
        PlaceRowsRule(PlaceRow(b, k, rows[k], 0).value, rows, k + 1);
      }
    }
  }

  /** The placement rule of place_pieces: the i-th `/`-separated rank string
      from the end is row i; a digit skips that many files, any other
      character occupies the next file. The call panics exactly when some
      non-digit lands on an exponent of 64 or more; otherwise each glyph's
      bitboard holds exactly the squares the glyph lands on (unknown
      characters occupy a file but set no bit). */
  lemma PlacementRule(fenRows: string)
    ensures var rows := Reversed(Split(fenRows, '/'));
            Placement(fenRows).Panicked? <==> RowsOverflow(rows, 0)
    ensures var rows := Reversed(Split(fenRows, '/'));
            Placement(fenRows).Returned? ==> forall g, sq ::
              sq in Mask(Placement(fenRows).value, g) <==> IsGlyph(g) && RowsPut(rows, 0, g, sq)
  {
    PlaceRowsRule(NoPieces, Reversed(Split(fenRows, '/')), 0);
  }

  /** A placement that does not panic puts every piece on the board. */
  lemma PlacementOnBoard(fenRows: string, g: char, sq: int)
    requires Placement(fenRows).Returned? && sq in Mask(Placement(fenRows).value, g)
    ensures OnBoard(sq)
  {
    PlacementRule(fenRows);
    var rows := Reversed(Split(fenRows, '/'));
    var r :| 0 <= r < |rows| && RowPuts(rows[r], r, 0, g, sq);
    var i :| 0 <= i < |rows[r]| && rows[r][i] == g && sq == 8 * r + FileBefore(rows[r], i);
    assert IsGlyph(g) && !IsDigit(g);
    assert !RowOverflows(rows[r], r, 0);
  }

  /** place_pieces. Returns whether it panicked; the other fields of the
      chessboard are left as they were. */
  method PlacePieces(cb: Chessboard, fenRows: string) returns (panicked: bool)
    modifies cb
    ensures panicked <==> Placement(fenRows).Panicked?
    ensures !panicked ==> cb.pieces == Placement(fenRows).value
    ensures cb.castlingRights == old(cb.castlingRights) && cb.enPassant == old(cb.enPassant)
    ensures cb.whiteTurn == old(cb.whiteTurn)
  {
    cb.Clear();
    var rows := Reversed(Split(fenRows, '/'));
    var rowIndex := 0;
    while rowIndex < |rows|
      invariant 0 <= rowIndex <= |rows|
      invariant Placement(fenRows) == PlaceRows(cb.pieces, rows, rowIndex)
      invariant cb.castlingRights == old(cb.castlingRights) && cb.enPassant == old(cb.enPassant)
      invariant cb.whiteTurn == old(cb.whiteTurn)
    {
      var rankPanicked := PlaceRank(cb, rowIndex, rows[rowIndex]);
      if rankPanicked {
        return true;
      }
      rowIndex := rowIndex + 1;
    }
    return false;
  }

  /** The inner loop of place_pieces: one rank string put on row `rowIndex`
      of the board, square by square. */
  method PlaceRank(cb: Chessboard, rowIndex: nat, rowString: string) returns (panicked: bool)
    modifies cb
    ensures PlaceRow(old(cb.pieces), rowIndex, rowString, 0) == if panicked then Panicked else Returned(cb.pieces)
    ensures cb.castlingRights == old(cb.castlingRights) && cb.enPassant == old(cb.enPassant)
    ensures cb.whiteTurn == old(cb.whiteTurn)
  {
    ghost var start := cb.pieces;
    var fileNdx: nat := 0;
    var i := 0;
    while i < |rowString|
      invariant 0 <= i <= |rowString|
      invariant PlaceRow(start, rowIndex, rowString, 0) == PlaceRow(cb.pieces, rowIndex, rowString[i..], fileNdx)
      invariant cb.castlingRights == old(cb.castlingRights) && cb.enPassant == old(cb.enPassant)
      invariant cb.whiteTurn == old(cb.whiteTurn)
    {
      var piece := rowString[i];
      PlaceRowStep(cb.pieces, rowIndex, rowString, i, fileNdx);
      if IsDigit(piece) {
        fileNdx := fileNdx + DigitValue(piece);
        i := i + 1;
        continue;
      }
      var exponent := 8 * rowIndex + fileNdx;
      if exponent >= 64 {
        return true;
      }
      cb.pieces := AddSquare(cb.pieces, piece, exponent);
      fileNdx := fileNdx + 1;
      i := i + 1;
    }
    assert rowString[i..] == [];
    return false;
  }

  /** One character of a rank string, read at index i. */
  lemma PlaceRowStep(b: Bitboards, row: nat, s: string, i: nat, file: nat)
    requires i < |s|
    ensures PlaceRow(b, row, s[i..], file)
         == if IsDigit(s[i]) then PlaceRow(b, row, s[i + 1..], file + DigitValue(s[i]))
            else if 8 * row + file >= 64 then Panicked
            else PlaceRow(AddSquare(b, s[i], 8 * row + file), row, s[i + 1..], file + 1)
  {
    assert s[i..][0] == s[i] && s[i..][1..] == s[i + 1..];
  }

  // ---------------------------------------------------------------- valid_fen

  /** The squares a rank string covers: a digit its value, a piece letter
      one, anything else (`~`) none. */
  function SquareCount(s: string): nat
    decreases |s|
  {
    if s == [] then 0
    else
      SquareCount(s[..|s| - 1]) + Weight(s[|s| - 1])
  }

  /** Character `c` may follow the characters `before` in a rank string:
      a digit, `~` or a piece letter; no digit right after a digit; a `~`
      only right after a piece letter. */
  predicate CharOk(before: string, c: char) {
    && (IsDigit(c) || c == '~' || IsGlyph(c))
    && (IsDigit(c) ==> before == [] || !IsDigit(before[|before| - 1]))
    && (c == '~' ==> before != [] && IsGlyph(before[|before| - 1]))
  }

  /** Every character of `s` may follow the characters before it. */
  predicate WellFormedRank(s: string)
    decreases |s|
  {
    s == [] || (WellFormedRank(s[..|s| - 1]) && CharOk(s[..|s| - 1], s[|s| - 1]))
  }

  /** The rules of a well-formed rank string, character by character: only
      digits, `~` and the twelve piece letters; no digit right after a digit;
      a `~` only right after a piece letter. */
  ghost predicate RankRules(s: string) {
    && (forall i :: 0 <= i < |s| ==> IsDigit(s[i]) || s[i] == '~' || IsGlyph(s[i]))
    && (forall i :: 0 < i < |s| && IsDigit(s[i]) ==> !IsDigit(s[i - 1]))
    && (forall i :: 0 <= i < |s| && s[i] == '~' ==> i > 0 && IsGlyph(s[i - 1]))
  }

  lemma WellFormedRankRules(s: string)
    ensures WellFormedRank(s) <==> RankRules(s)
  {
    if WellFormedRank(s) {
      WellFormedHasRules(s);
    }
    if RankRules(s) {
      RulesMakeWellFormed(s);
    }
  }

  lemma {:induction false} WellFormedHasRules(s: string)
    requires WellFormedRank(s)
    ensures RankRules(s)
    decreases |s|
  {
    if s != [] {
      var t := s[..|s| - 1];
      WellFormedHasRules(t);
      forall i | 0 <= i < |t| ensures s[i] == t[i] {}
    }
  }

  lemma {:induction false} RulesMakeWellFormed(s: string)
    requires RankRules(s)
    ensures WellFormedRank(s)
    decreases |s|
  {
    if s != [] {
      var t := s[..|s| - 1];
      forall i | 0 <= i < |t| ensures s[i] == t[i] {}
      assert RankRules(t);
      RulesMakeWellFormed(t);
      var n := |s| - 1;
      assert IsDigit(s[n]) || s[n] == '~' || IsGlyph(s[n]);
    }
  }

  /** A rank string valid_fen accepts: well formed and covering 8 squares. */
  predicate RankValid(s: string) {
    WellFormedRank(s) && SquareCount(s) == 8
  }

  /** No character occurs twice. */
  predicate NoRepeats(s: string) {
    forall i, j :: 0 <= i < j < |s| ==> s[i] != s[j]
  }

  /** The checks valid_fen makes after its regular expression matched, on the
      placement capture and the castling field. */
  predicate FenFieldsValid(placement: string, castles: string) {
    var ranks := Split(placement, '/');
    |ranks| == 8 && (forall k :: 0 <= k < 8 ==> RankValid(ranks[k])) && NoRepeats(castles)
  }

  /** The squares one character covers. */
  function Weight(c: char): nat {
    if IsDigit(c) then DigitValue(c) else if IsGlyph(c) then 1 else 0
  }

  /** One step of the rank scan: the prefix grows by `part[j]`, and a
      character that may not follow the prefix makes the whole rank invalid. */
  lemma ScanStep(part: string, j: nat)
    requires j < |part|
    ensures WellFormedRank(part[..j + 1]) <==> WellFormedRank(part[..j]) && CharOk(part[..j], part[j])
    ensures SquareCount(part[..j + 1]) == SquareCount(part[..j]) + Weight(part[j])
    ensures !CharOk(part[..j], part[j]) ==> !RankValid(part)
  {
    assert part[..j + 1][..j] == part[..j];
    if WellFormedRank(part) {
      WellFormedPrefix(part, j + 1);
    }
  }

  /** Every prefix of a well-formed rank string is well formed. */
  lemma {:induction false} WellFormedPrefix(s: string, n: nat)
    requires WellFormedRank(s) && n <= |s|
    ensures WellFormedRank(s[..n])
    decreases |s|
  {
    if n < |s| {
      var t := s[..|s| - 1];
      WellFormedPrefix(t, n);
      assert t[..n] == s[..n];
    } else {
      assert s[..n] == s;
    }
  }

  /** The scan of one rank string, with its early returns; returns whether the
      rank string is valid. */
  method ScanRank(part: string) returns (valid: bool)
    ensures valid <==> RankValid(part)
  {
    var pieceCount := 0;
    var previousWasDigit := false;
    var previousWasPiece := false;
    var j := 0;
    while j < |part|
      invariant 0 <= j <= |part|
      invariant WellFormedRank(part[..j])
      invariant pieceCount == SquareCount(part[..j])
      invariant previousWasDigit <==> j > 0 && IsDigit(part[j - 1])
      invariant previousWasPiece <==> j > 0 && IsGlyph(part[j - 1])
    {
      var p := part[j];
      ScanStep(part, j);
      if IsDigit(p) {
        if previousWasDigit {
          return false;
        }
        pieceCount := pieceCount + DigitValue(p);
        previousWasDigit := true;
        previousWasPiece := false;
      } else if p == '~' {
        if !previousWasPiece {
          return false;
        }
        previousWasDigit := false;
        previousWasPiece := false;
      } else if IsGlyph(p) {
        pieceCount := pieceCount + 1;
        previousWasDigit := false;
        previousWasPiece := true;
      } else {
        return false;
      }
      j := j + 1;
    }
    assert part[..j] == part;
    return pieceCount == 8;
  }

  /** unique_chars: whether no character occurs twice, inserting the
      characters one by one into a set of those seen. */
  method UniqueChars(s: string) returns (unique: bool)
    ensures unique <==> NoRepeats(s)
  {
    var seen: set<char> := {};
    var i := 0;
    while i < |s|
      invariant 0 <= i <= |s|
      invariant seen == set p | 0 <= p < i :: s[p]
      invariant forall p, q :: 0 <= p < q < i ==> s[p] != s[q]
    {
      if s[i] in seen {
        var p :| 0 <= p < i && s[p] == s[i];
        return false;
      }
      seen := seen + {s[i]};
      i := i + 1;
    }
    return true;
  }

  /** valid_fen after the regular expression: the placement capture splits
      into 8 rank strings, each valid, and the castling field has no repeated
      character. */
  method ValidFen(placement: string, castles: string) returns (valid: bool)
    ensures valid <==> FenFieldsValid(placement, castles)
  {
    var fenRanks := Split(placement, '/');
    if |fenRanks| != 8 {
      return false;
    }
    var k := 0;
    while k < |fenRanks|
      invariant 0 <= k <= 8
      invariant forall m :: 0 <= m < k ==> RankValid(fenRanks[m])
    {
      var ok := ScanRank(fenRanks[k]);
      if !ok {
        return false;
      }
      k := k + 1;
    }
    valid := UniqueChars(castles);
  }

  // ---------------------------------------------------------------- get_fen_placement

  /** One row of cells, run-length encoded: a maximal run of empty squares
      becomes its length as a digit (`empties` empty squares are pending
      before `row`), a piece its glyph. */
  function EncodeRank(row: seq<Option<char>>, empties: nat): string
    requires empties + |row| <= 9
    decreases |row|
  {
    if row == [] then Pending(empties)
    else if row[0].Some? then Pending(empties) + [row[0].value] + EncodeRank(row[1..], 0)
    else EncodeRank(row[1..], empties + 1)
  }

  /** A pending run of empty squares as its length, or nothing. */
  function Pending(empties: nat): string
    requires empties <= 9
  {
    if empties > 0 then [DigitChar(empties)] else []
  }

  /** The squares of row `r` (rank r + 1), files a to h. */
  function RankRow(b: Bitboards, r: nat): (row: seq<Option<char>>)
    ensures |row| == 8
    ensures forall f :: 0 <= f < 8 ==> row[f] == GlyphAt(b, 8 * r + f)
  {
    seq(8, f => GlyphAt(b, 8 * r + f))
  }

  /** One square further along a row: the encoding so far, followed by the
      encoding of the rest, stays the same. */
  lemma EncodeAdvance(row: seq<Option<char>>, file: nat, empties: nat, encoded: string)
    requires file < |row| && empties + |row| - file <= 9
    ensures row[file].Some? ==>
      (encoded + EncodeRank(row[file..], empties)
       == (encoded + Pending(empties) + [row[file].value]) + EncodeRank(row[file + 1..], 0))
    ensures row[file].None? ==>
      (encoded + EncodeRank(row[file..], empties) == encoded + EncodeRank(row[file + 1..], empties + 1))
  {
    EncodeStep(row, file, empties);
    if row[file].Some? {
      var p, v, rest := Pending(empties), [row[file].value], EncodeRank(row[file + 1..], 0);
      assert EncodeRank(row[file..], empties) == p + v + rest;
      assert encoded + (p + v + rest) == (encoded + p + v) + rest;
    }
  }

  /** The encoded rank strings, rank 8 first. */
  function RankStrings(b: Bitboards): (ranks: seq<string>)
    ensures |ranks| == 8
    ensures forall k :: 0 <= k < 8 ==> ranks[k] == EncodeRank(RankRow(b, 7 - k), 0)
  {
    seq(8, k requires 0 <= k < 8 => EncodeRank(RankRow(b, 7 - k), 0))
  }

  /** The placement field of a board: the rank strings, rank 8 first, joined
      by `/`. */
  function FenPlacementOf(b: Bitboards): string {
    Join(RankStrings(b), '/')
  }

  /** Each piece followed by the separator. */
  function Terminated(xs: seq<string>, sep: char): string
    decreases |xs|
  {
    if xs == [] then [] else Terminated(xs[..|xs| - 1], sep) + xs[|xs| - 1] + [sep]
  }

  /** Terminating every piece is joining them and appending one separator. */
  lemma {:induction false} TerminatedJoin(xs: seq<string>, sep: char)
    requires |xs| >= 1
    ensures Terminated(xs, sep) == Join(xs, sep) + [sep]
    decreases |xs|
  {
    if |xs| > 1 {
      var init := xs[..|xs| - 1];
      TerminatedJoin(init, sep);
      JoinSnoc(init, xs[|xs| - 1], sep);
      assert init + [xs[|xs| - 1]] == xs;
    }
  }

  lemma {:induction false} JoinSnoc(xs: seq<string>, x: string, sep: char)
    requires |xs| >= 1
    ensures Join(xs + [x], sep) == Join(xs, sep) + [sep] + x
    decreases |xs|
  {
    assert (xs + [x])[0] == xs[0];
    if |xs| > 1 {
      JoinSnoc(xs[1..], x, sep);
      assert (xs + [x])[1..] == xs[1..] + [x];
    } else {
      assert (xs + [x])[1..] == [x];
    }
  }

  /** One step of the rank encoder: a piece flushes the pending run of empty
      squares, an empty square lengthens it. */
  lemma EncodeStep(row: seq<Option<char>>, file: nat, empties: nat)
    requires file < |row| && empties + |row| - file <= 9
    ensures EncodeRank(row[file..], empties) ==
            if row[file].Some? then
              Pending(empties) + [row[file].value] + EncodeRank(row[file + 1..], 0)
            else EncodeRank(row[file + 1..], empties + 1)
  {
    var rest := row[file..];
    assert rest[0] == row[file] && rest[1..] == row[file + 1..];
  }

  /** The body of get_fen_placement's rank loop: the squares of rank `rank`,
      files a to h, run-length encoded. */
  method EncodeRankOf(cb: Chessboard, rank: int) returns (encoded: string)
    requires 1 <= rank <= 8
    ensures encoded == EncodeRank(RankRow(cb.pieces, rank - 1), 0)
  {
    ghost var row := RankRow(cb.pieces, rank - 1);
    encoded := [];
    var emptySquares := 0;
    var file := 0;
    while file < 8
      invariant 0 <= emptySquares <= file <= 8
      invariant EncodeRank(row, 0) == encoded + EncodeRank(row[file..], emptySquares)
    {
      var square := 8 * (rank - 1) + file;
      var piece := cb.PieceAt(square);
      assert piece == row[file];
      ghost var before, empties := encoded, emptySquares;
      if piece.Some? {
        if emptySquares > 0 {
          encoded := encoded + [DigitChar(emptySquares)];
          emptySquares := 0;
        }
        encoded := encoded + [piece.value];
        assert EncodeRank(row, 0) == encoded + EncodeRank(row[file + 1..], 0) by {
          assert encoded == before + Pending(empties) + [piece.value];
          EncodeAdvance(row, file, empties, before);
        }
      } else {
        emptySquares := emptySquares + 1;
        assert EncodeRank(row, 0) == encoded + EncodeRank(row[file + 1..], emptySquares) by {
          EncodeAdvance(row, file, empties, before);
        }
      }
      file := file + 1;
    }
    if emptySquares > 0 {
      encoded := encoded + [DigitChar(emptySquares)];
    }
  }

  /** get_fen_placement: for each rank from 8 down to 1, the run-length
      encoding of its squares a to h followed by `/`; the last `/` is
      removed. */
  method GetFenPlacement(cb: Chessboard) returns (result: string)
    ensures result == FenPlacementOf(cb.pieces)
  {
    ghost var ranks := RankStrings(cb.pieces);
    result := [];
    var rank := 8;
    while rank >= 1
      invariant 0 <= rank <= 8
      invariant result == Terminated(ranks[..8 - rank], '/')
    {
      var encoded := EncodeRankOf(cb, rank);
      assert ranks[..9 - rank] == ranks[..8 - rank] + [encoded];
      result := result + encoded + ['/'];
      rank := rank - 1;
    }
    assert ranks[..8] == ranks;
    TerminatedJoin(ranks, '/');
    result := result[..|result| - 1];
  }

  /** A row whose pieces are glyphs. */
  predicate GlyphRow(row: seq<Option<char>>) {
    forall j :: 0 <= j < |row| && row[j].Some? ==> IsGlyph(row[j].value)
  }

  lemma {:induction false} SquareCountAppend(a: string, b: string)
    ensures SquareCount(a + b) == SquareCount(a) + SquareCount(b)
    decreases |b|
  {
    if b == [] {
      assert a + b == a;
    } else {
      var init := b[..|b| - 1];
      SquareCountAppend(a, init);
      assert (a + b)[..|a + b| - 1] == a + init;
    }
  }

  predicate DigitsAndLetters(s: string) {
    forall i :: 0 <= i < |s| ==> IsDigit(s[i]) || IsGlyph(s[i])
  }

  predicate NoAdjacentDigits(s: string) {
    forall i :: 0 < i < |s| && IsDigit(s[i]) ==> !IsDigit(s[i - 1])
  }

  lemma DigitsAndLettersAppend(a: string, b: string)
    requires DigitsAndLetters(a) && DigitsAndLetters(b)
    ensures DigitsAndLetters(a + b)
  {
    forall i | |a| <= i < |a + b| ensures (a + b)[i] == b[i - |a|] {}
  }

  /** Appending after a non-digit cannot put two digits side by side. */
  lemma NoAdjacentDigitsAppend(a: string, b: string)
    requires NoAdjacentDigits(a) && NoAdjacentDigits(b)
    requires a != [] && !IsDigit(a[|a| - 1])
    ensures NoAdjacentDigits(a + b)
  {
    forall i | |a| < i < |a + b| && IsDigit((a + b)[i]) ensures !IsDigit((a + b)[i - 1]) {
      assert (a + b)[i] == b[i - |a|] && (a + b)[i - 1] == b[i - 1 - |a|];
    }
  }

  /** An encoded row holds only digits and piece letters, never two digits in
      a row, and covers the pending empty squares plus the row's squares. */
  lemma {:induction false} EncodeRankShape(row: seq<Option<char>>, empties: nat)
    requires empties + |row| <= 9 && GlyphRow(row)
    ensures var s := EncodeRank(row, empties);
            DigitsAndLetters(s) && NoAdjacentDigits(s) && SquareCount(s) == empties + |row|
    decreases |row|
  {
    if row != [] {
      var rest := row[1..];
      assert GlyphRow(rest) by {
        forall j | 0 <= j < |rest| && rest[j].Some? ensures IsGlyph(rest[j].value) {
          assert rest[j] == row[j + 1];
        }
      }
      if row[0].Some? {
        EncodeRankShape(rest, 0);
        var tail := EncodeRank(rest, 0);
        var head := Pending(empties) + [row[0].value];
        HeadShape(empties, row[0].value);
        SquareCountAppend(head, tail);
        DigitsAndLettersAppend(head, tail);
        NoAdjacentDigitsAppend(head, tail);
      } else {
        EncodeRankShape(rest, empties + 1);
      }
    } else {
      PendingShape(empties);
    }
  }

  lemma PendingShape(empties: nat)
    requires empties <= 9
    ensures var p := Pending(empties);
            DigitsAndLetters(p) && NoAdjacentDigits(p) && SquareCount(p) == empties
  {
    if empties > 0 {
      assert Pending(empties)[..0] == [];
    }
  }

  /** A pending run followed by a piece. */
  lemma HeadShape(empties: nat, g: char)
    requires empties <= 9 && IsGlyph(g)
    ensures var head := Pending(empties) + [g];
            && DigitsAndLetters(head) && NoAdjacentDigits(head) && SquareCount(head) == empties + 1
            && !IsDigit(head[|head| - 1])
  {
    PendingShape(empties);
    var head := Pending(empties) + [g];
    assert head[..|head| - 1] == Pending(empties);
  }

  /** Every piece of a rank row is one of the twelve glyphs. */
  lemma RankRowGlyphs(b: Bitboards, r: nat)
    ensures GlyphRow(RankRow(b, r))
  {
    var row := RankRow(b, r);
    forall j | 0 <= j < 8 && row[j].Some? ensures IsGlyph(row[j].value) {
      assert row[j] == GlyphAt(b, 8 * r + j);
    }
  }

  /** get_fen_placement produces 8 rank strings separated by `/`, and each
      passes valid_fen's rank checks: no two digits in a row, 8 squares. */
  lemma SerialisedPlacementValid(b: Bitboards)
    ensures Split(FenPlacementOf(b), '/') == RankStrings(b)
    ensures forall k :: 0 <= k < 8 ==> RankValid(RankStrings(b)[k])
  {
    var ranks := RankStrings(b);
    forall k | 0 <= k < 8 ensures '/' !in ranks[k] && RankValid(ranks[k]) {
      RankStringValid(b, k);
    }
    SplitJoin(ranks, '/');
  }

  lemma RankStringValid(b: Bitboards, k: nat)
    requires k < 8
    ensures '/' !in RankStrings(b)[k] && RankValid(RankStrings(b)[k])
  {
    RankRowGlyphs(b, 7 - k);
    EncodeRankShape(RankRow(b, 7 - k), 0);
    RulesMakeWellFormed(RankStrings(b)[k]);
  }

  /** Cell `j` of `row` holds glyph `g` and `sq` is `base + j`. */
  ghost predicate RowHas(row: seq<Option<char>>, g: char, base: int, sq: int) {
    exists j :: 0 <= j < |row| && row[j] == Some(g) && sq == base + j
  }

  lemma RowHasShift(row: seq<Option<char>>, g: char, base: int, sq: int)
    requires row != []
    ensures RowHas(row, g, base, sq) <==> (row[0] == Some(g) && sq == base) || RowHas(row[1..], g, base + 1, sq)
  {
    var rest := row[1..];
    if RowHas(rest, g, base + 1, sq) {
      var j :| 0 <= j < |rest| && rest[j] == Some(g) && sq == base + 1 + j;
      assert row[j + 1] == rest[j];
    }
    if RowHas(row, g, base, sq) {
      var j :| 0 <= j < |row| && row[j] == Some(g) && sq == base + j;
      if j > 0 {
        assert rest[j - 1] == row[j];
      }
    }
  }

  /** A pending run only advances the file index. */
  lemma PendingShift(empties: nat, t: string, r: nat, file: nat, g: char, sq: int)
    requires empties <= 9 && IsGlyph(g)
    ensures RowPuts(Pending(empties) + t, r, file, g, sq) <==> RowPuts(t, r, file + empties, g, sq)
    ensures RowOverflows(Pending(empties) + t, r, file) <==> RowOverflows(t, r, file + empties)
  {
    var s := Pending(empties) + t;
    if empties > 0 {
      assert s[0] == DigitChar(empties) && Advance(s[0]) == empties;
      assert s[1..] == t;
      PutsShift(s, r, file, g, sq);
      OverflowsShift(s, r, file);
    } else {
      assert s == t;
    }
  }

  /** A piece occupies the current file and advances it by one. */
  lemma PieceShift(c: char, t: string, r: nat, file: nat, g: char, sq: int)
    requires IsGlyph(c)
    ensures RowPuts([c] + t, r, file, g, sq) <==> (c == g && sq == 8 * r + file) || RowPuts(t, r, file + 1, g, sq)
    ensures RowOverflows([c] + t, r, file) <==> 8 * r + file >= 64 || RowOverflows(t, r, file + 1)
  {
    var s := [c] + t;
    assert s[0] == c && s[1..] == t;
    PutsShift(s, r, file, g, sq);
    OverflowsShift(s, r, file);
  }

  /** Parsing an encoded row puts each glyph exactly on the squares of the
      cells that hold it. */
  lemma {:induction false} EncodeRankPuts(row: seq<Option<char>>, empties: nat, r: nat, file: nat, g: char, sq: int)
    requires empties + |row| <= 9 && GlyphRow(row) && IsGlyph(g)
    ensures RowPuts(EncodeRank(row, empties), r, file, g, sq) <==> RowHas(row, g, 8 * r + file + empties, sq)
    decreases |row|
  {
    if row == [] {
      PendingShift(empties, [], r, file, g, sq);
      assert Pending(empties) + [] == Pending(empties);
    } else {
      RowHasShift(row, g, 8 * r + file + empties, sq);
      GlyphRowTail(row);
      if row[0].Some? {
        var tail := EncodeRank(row[1..], 0);
        EncodeRankPuts(row[1..], 0, r, file + empties + 1, g, sq);
        assert RowPuts(EncodeRank(row, empties), r, file, g, sq)
           <==> RowPuts([row[0].value] + tail, r, file + empties, g, sq) by {
          PendingShift(empties, [row[0].value] + tail, r, file, g, sq);
          assert Pending(empties) + [row[0].value] + tail == Pending(empties) + ([row[0].value] + tail);
        }
        PieceShift(row[0].value, tail, r, file + empties, g, sq);
      } else {
        EncodeRankPuts(row[1..], empties + 1, r, file, g, sq);
      }
    }
  }

  lemma GlyphRowTail(row: seq<Option<char>>)
    requires row != [] && GlyphRow(row)
    ensures GlyphRow(row[1..])
  {
    var rest := row[1..];
    forall j | 0 <= j < |rest| && rest[j].Some? ensures IsGlyph(rest[j].value) {
      assert rest[j] == row[j + 1];
    }
  }

  /** An encoded row that ends on the board never overflows. */
  lemma {:induction false} EncodeRankFits(row: seq<Option<char>>, empties: nat, r: nat, file: nat)
    requires empties + |row| <= 9 && 8 * r + file + empties + |row| <= 64 && GlyphRow(row)
    ensures !RowOverflows(EncodeRank(row, empties), r, file)
    decreases |row|
  {
    if row == [] {
      PendingShift(empties, [], r, file, 'p', 0);
      assert Pending(empties) + [] == Pending(empties);
    } else {
      GlyphRowTail(row);
      if row[0].Some? {
        var tail := EncodeRank(row[1..], 0);
        EncodeRankFits(row[1..], 0, r, file + empties + 1);
        PieceShift(row[0].value, tail, r, file + empties, 'p', 0);
        PendingShift(empties, [row[0].value] + tail, r, file, 'p', 0);
        assert Pending(empties) + [row[0].value] + tail == Pending(empties) + ([row[0].value] + tail);
      } else {
        EncodeRankFits(row[1..], empties + 1, r, file);
      }
    }
  }

  /** The rank strings place_pieces sees for a serialised board: row r is the
      encoding of rank r + 1, and none of them overflows. */
  lemma SerialisedRows(b: Bitboards)
    ensures var rows := Reversed(Split(FenPlacementOf(b), '/'));
            && |rows| == 8
            && (forall r :: 0 <= r < 8 ==> rows[r] == EncodeRank(RankRow(b, r), 0))
            && !RowsOverflow(rows, 0)
  {
    SerialisedPlacementValid(b);
    var rows := Reversed(Split(FenPlacementOf(b), '/'));
    forall r | 0 <= r < 8 ensures !RowOverflows(rows[r], r, 0) {
      RankRowGlyphs(b, r);
      EncodeRankFits(RankRow(b, r), 0, r, 0);
    }
  }

  /** Parsing the encoding of rank r + 1 as row r puts glyph `g` exactly on
      the squares of that rank that show it. */
  lemma RankPuts(b: Bitboards, r: nat, g: char, sq: int)
    requires r < 8 && IsGlyph(g)
    ensures RowPuts(EncodeRank(RankRow(b, r), 0), r, 0, g, sq) <==> 8 * r <= sq < 8 * r + 8 && GlyphAt(b, sq) == Some(g)
  {
    var row := RankRow(b, r);
    RankRowGlyphs(b, r);
    EncodeRankPuts(row, 0, r, 0, g, sq);
    if 8 * r <= sq < 8 * r + 8 && GlyphAt(b, sq) == Some(g) {
      assert row[sq - 8 * r] == GlyphAt(b, sq);
    }
  }

  /** Whether the serialised board puts glyph `g` on `sq`. */
  lemma SerialisedSquare(b: Bitboards, g: char, sq: int)
    requires IsGlyph(g)
    ensures RowsPut(Reversed(Split(FenPlacementOf(b), '/')), 0, g, sq) <==> OnBoard(sq) && GlyphAt(b, sq) == Some(g)
  {
    SerialisedRows(b);
    var rows := Reversed(Split(FenPlacementOf(b), '/'));
    if OnBoard(sq) && GlyphAt(b, sq) == Some(g) {
      RankPuts(b, sq / 8, g, sq);
      assert RowPuts(rows[sq / 8], sq / 8, 0, g, sq);
    }
    if RowsPut(rows, 0, g, sq) {
      var r :| 0 <= r < |rows| && RowPuts(rows[r], r, 0, g, sq);
      RankPuts(b, r, g, sq);
    }
  }

  /** Round trip of the placement field: parsing what get_fen_placement
      writes never panics, and gives each glyph's bitboard exactly the
      squares on which that glyph was the piece shown. */
  lemma PlacementRoundTrip(b: Bitboards)
    ensures Placement(FenPlacementOf(b)).Returned?
    ensures forall g, sq :: sq in Mask(Placement(FenPlacementOf(b)).value, g) <==> OnBoard(sq) && GlyphAt(b, sq) == Some(g)
  {
    SerialisedRows(b);
    PlacementRule(FenPlacementOf(b));
    forall g, sq | IsGlyph(g) {
      SerialisedSquare(b, g, sq);
    }
  }

  lemma MaskRoundTrip(b: Bitboards, g: char)
    requires Consistent(b) && IsGlyph(g)
    ensures Placement(FenPlacementOf(b)).Returned?
    ensures Mask(Placement(FenPlacementOf(b)).value, g) == Mask(b, g)
  {
    SerialisedRows(b);
    PlacementRule(FenPlacementOf(b));
    var v := Placement(FenPlacementOf(b)).value;
    forall sq ensures sq in Mask(v, g) <==> sq in Mask(b, g) {
      SerialisedSquare(b, g, sq);
      ConsistentGlyphAt(b, g, sq);
    }
  }

  /** On a consistent board the round trip is exact: parsing what
      get_fen_placement writes gives back the same twelve bitboards. */
  lemma PlacementRoundTripExact(b: Bitboards)
    requires Consistent(b)
    ensures Placement(FenPlacementOf(b)) == Returned(b)
  {
    PlacementRoundTrip(b);
    forall g | IsGlyph(g) ensures Mask(Placement(FenPlacementOf(b)).value, g) == Mask(b, g) {
      MaskRoundTrip(b, g);
    }
    MasksDetermine(Placement(FenPlacementOf(b)).value, b);
  }

  /** The characters valid_fen's regular expression admits in a rank string:
      the twelve piece letters and the digits 1 to 8. */
  predicate AcceptedChars(s: string) {
    forall i :: 0 <= i < |s| ==> IsGlyph(s[i]) || '1' <= s[i] <= '8'
  }

  /** A rank string valid_fen accepts: admitted characters, well formed,
      covering 8 squares. */
  predicate AcceptedRank(s: string) {
    AcceptedChars(s) && RankValid(s)
  }

  /** A placement field valid_fen accepts: eight `/`-separated rank strings,
      each accepted. */
  predicate PlacementAccepted(f: string) {
    var ranks := Split(f, '/');
    |ranks| == 8 && forall k :: 0 <= k < 8 ==> AcceptedRank(ranks[k])
  }

  /** `d` empty cells. */
  function Nones(d: nat): seq<Option<char>> {
    seq(d, _ => None)
  }

  /** The cells a rank string describes, from its first file on: a digit is
      that many empty cells, any other character one cell holding it. */
  function Expand(s: string): seq<Option<char>>
    decreases |s|
  {
    if s == [] then []
    else (if IsDigit(s[0]) then Nones(DigitValue(s[0])) else [Some(s[0])]) + Expand(s[1..])
  }

  lemma DigitsAndLettersTail(s: string)
    requires s != [] && DigitsAndLetters(s)
    ensures DigitsAndLetters(s[1..])
  {
    assert forall i :: 0 <= i < |s[1..]| ==> s[1..][i] == s[i + 1];
  }

  lemma AcceptedTail(s: string)
    requires s != [] && AcceptedChars(s) && NoAdjacentDigits(s)
    ensures AcceptedChars(s[1..]) && NoAdjacentDigits(s[1..]) && DigitsAndLetters(s)
  {
    assert forall i :: 0 <= i < |s[1..]| ==> s[1..][i] == s[i + 1];
  }

  /** A rank string of digits and piece letters describes as many cells as
      it covers squares. */
  lemma {:induction false} ExpandLength(s: string)
    requires DigitsAndLetters(s)
    ensures |Expand(s)| == SquareCount(s)
    decreases |s|
  {
    if s != [] {
      var t := s[1..];
      DigitsAndLettersTail(s);
      ExpandLength(t);
      SquareCountAppend([s[0]], t);
      assert [s[0]] + t == s;
      assert [s[0]][..0] == [];
    }
  }

  /** The cells of a rank string of digits and piece letters hold glyphs. */
  lemma {:induction false} ExpandGlyphs(s: string)
    requires DigitsAndLetters(s)
    ensures GlyphRow(Expand(s))
    decreases |s|
  {
    if s != [] {
      var t := s[1..];
      DigitsAndLettersTail(s);
      ExpandGlyphs(t);
      var head := if IsDigit(s[0]) then Nones(DigitValue(s[0])) else [Some(s[0])];
      var row := Expand(s);
      assert row == head + Expand(t);
      forall j | 0 <= j < |row| && row[j].Some? ensures IsGlyph(row[j].value) {
        if j >= |head| {
          assert row[j] == Expand(t)[j - |head|];
        }
      }
    }
  }

  /** A run of empty cells only lengthens the pending run. */
  lemma {:induction false} EncodeNones(d: nat, row: seq<Option<char>>, empties: nat)
    requires empties + d + |row| <= 9
    ensures EncodeRank(Nones(d) + row, empties) == EncodeRank(row, empties + d)
    decreases d
  {
    var x := Nones(d) + row;
    if d == 0 {
      assert x == row;
    } else {
      assert x[0] == None && x[1..] == Nones(d - 1) + row;
      EncodeNones(d - 1, row, empties + 1);
    }
  }

  /** Read from its first character: every character is a piece letter or
      a digit 1 to 8, and no digit is followed by a digit. */
  predicate CanonicalChars(s: string)
    decreases |s|
  {
    s == [] ||
    (&& (IsGlyph(s[0]) || '1' <= s[0] <= '8')
     && (IsDigit(s[0]) && |s| > 1 ==> !IsDigit(s[1]))
     && CanonicalChars(s[1..]))
  }

  lemma {:induction false} AcceptedCanonical(s: string)
    requires AcceptedChars(s) && NoAdjacentDigits(s)
    ensures CanonicalChars(s)
    decreases |s|
  {
    if s != [] {
      AcceptedTail(s);
      AcceptedCanonical(s[1..]);
    }
  }

  /** Encoding the cells of an accepted rank string gives the string back,
      after the pending run (a rank string that opens with a digit comes
      with no pending run). */
  lemma {:induction false} EncodeExpand(s: string, empties: nat)
    requires CanonicalChars(s)
    requires s == [] || !IsDigit(s[0]) || empties == 0
    requires empties + |Expand(s)| <= 9
    ensures EncodeRank(Expand(s), empties) == Pending(empties) + s
    decreases |s|
  {
    if s == [] {
      assert Pending(empties) + s == Pending(empties);
    } else {
      ExpandStepLength(s);
      if IsDigit(s[0]) {
        EncodeExpand(s[1..], DigitValue(s[0]));
        DigitStep(s);
      } else {
        EncodeExpand(s[1..], 0);
        PieceStep(s, empties);
      }
    }
  }

  /** The first character of a rank string describes its first cells. */
  lemma ExpandStepLength(s: string)
    requires s != []
    ensures |Expand(s)| == Advance(s[0]) + |Expand(s[1..])|
  {}

  /** A leading digit becomes the pending run of the rest. */
  lemma DigitStep(s: string)
    requires s != [] && '1' <= s[0] <= '9' && |Expand(s)| <= 9
    requires EncodeRank(Expand(s[1..]), DigitValue(s[0])) == Pending(DigitValue(s[0])) + s[1..]
    ensures EncodeRank(Expand(s), 0) == Pending(0) + s
  {
    var t, d := s[1..], DigitValue(s[0]);
    assert Expand(s) == Nones(d) + Expand(t);
    EncodeNones(d, Expand(t), 0);
    assert DigitChar(d) == s[0];
    assert [s[0]] + t == s;
  }

  /** A leading piece letter flushes the pending run. */
  lemma PieceStep(s: string, empties: nat)
    requires s != [] && !IsDigit(s[0]) && empties + |Expand(s)| <= 9
    requires EncodeRank(Expand(s[1..]), 0) == Pending(0) + s[1..]
    ensures EncodeRank(Expand(s), empties) == Pending(empties) + s
  {
    var row, t := Expand(s), s[1..];
    assert row == [Some(s[0])] + Expand(t);
    assert row[0] == Some(s[0]) && row[1..] == Expand(t);
    assert Pending(0) + t == t;
    assert Pending(empties) + [s[0]] + t == Pending(empties) + ([s[0]] + t);
    assert [s[0]] + t == s;
  }

  /** A run of empty cells only moves the squares that follow it. */
  lemma {:induction false} NonesShift(d: nat, row: seq<Option<char>>, g: char, base: int, sq: int)
    ensures RowHas(Nones(d) + row, g, base, sq) <==> RowHas(row, g, base + d, sq)
  {
    var x := Nones(d) + row;
    if RowHas(row, g, base + d, sq) {
      var j :| 0 <= j < |row| && row[j] == Some(g) && sq == base + d + j;
      assert x[d + j] == row[j];
    }
    if RowHas(x, g, base, sq) {
      var j :| 0 <= j < |x| && x[j] == Some(g) && sq == base + j;
      assert j >= d && row[j - d] == x[j];
    }
  }

  /** Placing a rank string of digits and piece letters puts a glyph
      exactly on the squares of the cells that hold it. */
  lemma {:induction false} ExpandPuts(s: string, r: nat, file: nat, g: char, sq: int)
    requires DigitsAndLetters(s) && !IsDigit(g)
    ensures RowPuts(s, r, file, g, sq) <==> RowHas(Expand(s), g, 8 * r + file, sq)
    decreases |s|
  {
    if s != [] {
      var t, adv := s[1..], Advance(s[0]);
      DigitsAndLettersTail(s);
      PutsShift(s, r, file, g, sq);
      ExpandPuts(t, r, file + adv, g, sq);
      if IsDigit(s[0]) {
        assert Expand(s) == Nones(adv) + Expand(t);
        NonesShift(adv, Expand(t), g, 8 * r + file, sq);
      } else {
        var row := Expand(s);
        assert row[0] == Some(s[0]) && row[1..] == Expand(t);
        RowHasShift(row, g, 8 * r + file, sq);
      }
    }
  }

  /** A rank string of digits and piece letters whose cells end on the
      board never overflows. */
  lemma {:induction false} ExpandFits(s: string, r: nat, file: nat)
    requires DigitsAndLetters(s) && 8 * r + file + |Expand(s)| <= 64
    ensures !RowOverflows(s, r, file)
    decreases |s|
  {
    if s != [] {
      var t := s[1..];
      DigitsAndLettersTail(s);
      OverflowsShift(s, r, file);
      assert |Expand(s)| == Advance(s[0]) + |Expand(t)|;
      ExpandFits(t, r, file + Advance(s[0]));
    }
  }

  /** An accepted rank string describes eight cells holding glyphs. */
  lemma {:induction false} AcceptedRankShape(s: string)
    requires AcceptedRank(s)
    ensures DigitsAndLetters(s) && NoAdjacentDigits(s) && |Expand(s)| == 8 && GlyphRow(Expand(s))
  {
    WellFormedRankRules(s);
    ExpandLength(s);
    ExpandGlyphs(s);
  }

  /** The rank strings place_pieces sees for an accepted field: eight
      accepted rank strings, none of which overflows. */
  lemma {:induction false} ParsedRows(f: string)
    requires PlacementAccepted(f)
    ensures var rows := Reversed(Split(f, '/'));
            && |rows| == 8
            && (forall r :: 0 <= r < 8 ==> AcceptedRank(rows[r]))
            && !RowsOverflow(rows, 0)
  {
    var rows := Reversed(Split(f, '/'));
    forall r | 0 <= r < 8 ensures !RowOverflows(rows[r], r, 0) {
      AcceptedRankShape(rows[r]);
      ExpandFits(rows[r], r, 0);
    }
  }

  /** The piece place_pieces leaves on file j of row r is the j-th cell the
      rank string of that row describes. */
  lemma {:induction false} ParsedCell(f: string, r: nat, j: nat)
    requires PlacementAccepted(f) && r < 8 && j < 8
    ensures Placement(f).Returned?
    ensures var row := Expand(Reversed(Split(f, '/'))[r]);
            |row| == 8 && GlyphAt(Placement(f).value, 8 * r + j) == row[j]
  {
    var rows := Reversed(Split(f, '/'));
    ParsedRows(f);
    PlacementRule(f);
    var v := Placement(f).value;
    var row := Expand(rows[r]);
    AcceptedRankShape(rows[r]);
    forall g | IsGlyph(g) ensures 8 * r + j in Mask(v, g) <==> row[j] == Some(g) {
      RowsPutCell(rows, r, j, g);
    }
    GlyphAtOfMasks(v, 8 * r + j, row[j]);
  }

  /** A cell holding glyph g that every glyph's bitboard agrees with is what
      GlyphAt reads back. */
  lemma GlyphAtOfMasks(v: Bitboards, sq: int, cell: Option<char>)
    requires cell.Some? ==> IsGlyph(cell.value)
    requires forall g :: IsGlyph(g) ==> (sq in Mask(v, g) <==> cell == Some(g))
    ensures GlyphAt(v, sq) == cell
  {
    if cell.Some? {
      assert sq in Mask(v, cell.value);
      assert cell.value in Glyphs;
      var i :| 0 <= i < |Glyphs| && Glyphs[i] == cell.value;
      assert GlyphAt(v, sq).Some?;
    }
  }

  /** Among eight accepted rank strings, glyph g lands on file j of row r
      exactly when cell j of rank string r holds g. */
  lemma {:induction false} RowsPutCell(rows: seq<string>, r: nat, j: nat, g: char)
    requires |rows| == 8 && (forall k :: 0 <= k < 8 ==> AcceptedRank(rows[k]))
    requires r < 8 && j < 8 && IsGlyph(g)
    ensures |Expand(rows[r])| == 8
    ensures RowsPut(rows, 0, g, 8 * r + j) <==> Expand(rows[r])[j] == Some(g)
  {
    AcceptedRankShape(rows[r]);
    if Expand(rows[r])[j] == Some(g) {
      CellPuts(rows, r, j, g);
    }
    if RowsPut(rows, 0, g, 8 * r + j) {
      PutCell(rows, r, j, g);
    }
  }

  lemma {:induction false} CellPuts(rows: seq<string>, r: nat, j: nat, g: char)
    requires |rows| == 8 && r < 8 && AcceptedRank(rows[r]) && IsGlyph(g)
    requires j < |Expand(rows[r])| && Expand(rows[r])[j] == Some(g)
    ensures RowsPut(rows, 0, g, 8 * r + j)
  {
    var sq := 8 * r + j;
    AcceptedRankShape(rows[r]);
    ExpandPuts(rows[r], r, 0, g, sq);
    assert RowHas(Expand(rows[r]), g, 8 * r, sq);
    assert RowPuts(rows[r], r, 0, g, sq);
  }

  lemma {:induction false} PutCell(rows: seq<string>, r: nat, j: nat, g: char)
    requires |rows| == 8 && (forall k :: 0 <= k < 8 ==> AcceptedRank(rows[k]))
    requires r < 8 && j < 8 && IsGlyph(g) && RowsPut(rows, 0, g, 8 * r + j)
    ensures j < |Expand(rows[r])| && Expand(rows[r])[j] == Some(g)
  {
    var sq := 8 * r + j;
    var r' :| 0 <= r' < |rows| && RowPuts(rows[r'], r', 0, g, sq);
    AcceptedRankShape(rows[r']);
    ExpandPuts(rows[r'], r', 0, g, sq);
    var j' :| 0 <= j' < |Expand(rows[r'])| && Expand(rows[r'])[j'] == Some(g) && sq == 8 * r' + j';
    assert r' == r && j' == j;
  }

  /** Row r of the board place_pieces leaves is the row of cells its rank
      string describes. */
  lemma {:induction false} ParsedRankRow(f: string, r: nat)
    requires PlacementAccepted(f) && r < 8
    ensures Placement(f).Returned?
    ensures RankRow(Placement(f).value, r) == Expand(Reversed(Split(f, '/'))[r])
  {
    var rows := Reversed(Split(f, '/'));
    ParsedRows(f);
    PlacementRule(f);
    AcceptedRankShape(rows[r]);
    forall j | 0 <= j < 8 ensures RankRow(Placement(f).value, r)[j] == Expand(rows[r])[j] {
      ParsedCell(f, r, j);
    }
  }

  /** get_fen_placement writes back the k-th rank string of an accepted
      field. */
  lemma {:induction false} ParsedRank(f: string, k: nat)
    requires PlacementAccepted(f) && k < 8
    ensures Placement(f).Returned? && RankStrings(Placement(f).value)[k] == Split(f, '/')[k]
  {
    var ranks := Split(f, '/');
    ParsedRankRow(f, 7 - k);
    assert Reversed(ranks)[7 - k] == ranks[k];
    RankStringOfRow(Placement(f).value, k, ranks[k]);
  }

  /** A rank whose squares are the cells of an accepted rank string is
      written as that string. */
  lemma RankStringOfRow(b: Bitboards, k: nat, s: string)
    requires k < 8 && AcceptedRank(s) && RankRow(b, 7 - k) == Expand(s)
    ensures RankStrings(b)[k] == s
  {
    var row := RankRow(b, 7 - k);
    assert RankStrings(b)[k] == EncodeRank(row, 0);
    assert EncodeRank(row, 0) == s by {
      EncodeAccepted(s);
    }
  }

  /** Encoding the cells of an accepted rank string gives it back. */
  lemma EncodeAccepted(s: string)
    requires AcceptedRank(s)
    ensures |Expand(s)| == 8 && EncodeRank(Expand(s), 0) == s
  {
    AcceptedRankShape(s);
    AcceptedCanonical(s);
    EncodeExpand(s, 0);
    assert Pending(0) + s == s;
  }

  /** Parse then write for the placement field: for a field valid_fen
      accepts, place_pieces does not panic and get_fen_placement writes the
      same field back. */
  lemma {:induction false} PlacementParseThenWrite(f: string)
    requires PlacementAccepted(f)
    ensures Placement(f).Returned? && FenPlacementOf(Placement(f).value) == f
  {
    var ranks := Split(f, '/');
    ParsedRankRow(f, 0);
    var v := Placement(f).value;
    forall k | 0 <= k < 8 ensures RankStrings(v)[k] == ranks[k] {
      ParsedRank(f, k);
    }
    assert RankStrings(v) == ranks;
    JoinSplit(f, '/');
  }

  // ---------------------------------------------------------------- castling rights

  /** The castling-rights bit of a letter: K = 8, Q = 4, k = 2, q = 1, none
      for anything else. */
  function CastleBit(c: char): bv8 {
    match c
    case 'K' => 8
    case 'Q' => 4
    case 'k' => 2
    case 'q' => 1
    case _ => 0
  }

  /** Position of a castling letter in `KQkq`. */
  function CastleOrder(c: char): int {
    match c
    case 'K' => 0
    case 'Q' => 1
    case 'k' => 2
    case 'q' => 3
    case _ => 4
  }

  predicate IsCastleLetter(c: char) { c == 'K' || c == 'Q' || c == 'k' || c == 'q' }

  /** The letters of `letters` whose bit is set in `state`, in order. */
  function KeptRights(letters: string, state: bv8): string
    decreases |letters|
  {
    if letters == [] then []
    else (if state & CastleBit(letters[0]) != 0 then [letters[0]] else []) + KeptRights(letters[1..], state)
  }

  /** get_fen_castles: the letters of `KQkq` whose bit is set, or `-`. */
  function GetFenCastles(state: bv8): string {
    var rights := KeptRights("KQkq", state);
    if rights == [] then "-" else rights
  }

  /** The castling rights parse_castling_rights leaves for a field: the
      bits of its letters OR-ed together, starting from none. */
  function CastlingBits(s: string): bv8
    decreases |s|
  {
    if s == [] then 0 else CastlingBits(s[..|s| - 1]) | CastleBit(s[|s| - 1])
  }

  /** parse_castling_rights. */
  method ParseCastlingRights(cb: Chessboard, castleRights: string)
    modifies cb
    ensures cb.castlingRights == CastlingBits(castleRights)
    ensures cb.pieces == old(cb.pieces) && cb.enPassant == old(cb.enPassant) && cb.whiteTurn == old(cb.whiteTurn)
  {
    cb.castlingRights := 0;
    var i := 0;
    while i < |castleRights|
      invariant 0 <= i <= |castleRights|
      invariant cb.castlingRights == CastlingBits(castleRights[..i])
      invariant cb.pieces == old(cb.pieces) && cb.enPassant == old(cb.enPassant) && cb.whiteTurn == old(cb.whiteTurn)
    {
      assert castleRights[..i + 1][..i] == castleRights[..i];
      cb.castlingRights := cb.castlingRights | CastleBit(castleRights[i]);
      i := i + 1;
    }
    assert castleRights[..i] == castleRights;
  }

  /** The parsed rights hold a letter's bit exactly when the letter occurs in
      the field, and nothing above the low four bits. */
  lemma {:induction false} CastlingBitsMembership(s: string)
    ensures CastlingBits(s) & 0xF0 == 0
    ensures forall c :: IsCastleLetter(c) ==> (CastlingBits(s) & CastleBit(c) != 0 <==> c in s)
    decreases |s|
  {
    if s != [] {
      var init := s[..|s| - 1];
      CastlingBitsMembership(init);
      assert s == init + [s[|s| - 1]];
      forall c | IsCastleLetter(c) ensures CastlingBits(s) & CastleBit(c) != 0 <==> c in s {
        assert c in s <==> c in init || c == s[|s| - 1];
      }
    }
  }

  /** The kept letters are those of `letters` whose bit is set. */
  lemma {:induction false} KeptRightsMembership(letters: string, state: bv8, x: char)
    ensures x in KeptRights(letters, state) <==> x in letters && state & CastleBit(x) != 0
    decreases |letters|
  {
    if letters != [] {
      KeptRightsMembership(letters[1..], state, x);
      assert x in letters <==> x == letters[0] || x in letters[1..] by {
        assert letters == [letters[0]] + letters[1..];
      }
    }
  }

  /** `KQkq` lists the four castling letters in their order. */
  lemma CastleOrderLetters()
    ensures CastlesOrdered("KQkq")
    ensures forall i :: 0 <= i < |"KQkq"| ==> IsCastleLetter("KQkq"[i])
  {
    var order := "KQkq";
    assert order[0] == 'K' && order[1] == 'Q' && order[2] == 'k' && order[3] == 'q';
    forall i, j | 0 <= i < j < |order| ensures CastleOrder(order[i]) < CastleOrder(order[j]) {
      assert CastleOrder(order[i]) == i && CastleOrder(order[j]) == j;
    }
  }

  /** Keeping some letters of a list in strictly increasing order keeps the
      order. */
  lemma {:induction false} KeptRightsOrdered(letters: string, state: bv8)
    requires CastlesOrdered(letters)
    ensures CastlesOrdered(KeptRights(letters, state))
    decreases |letters|
  {
    if letters != [] {
      var rest := letters[1..];
      OrderedTail(letters);
      KeptRightsOrdered(rest, state);
      var tail := KeptRights(rest, state);
      forall k | 0 <= k < |tail| ensures CastleOrder(letters[0]) < CastleOrder(tail[k]) {
        KeptRightsMembership(rest, state, tail[k]);
        var m :| 0 <= m < |rest| && rest[m] == tail[k];
      }
      if state & CastleBit(letters[0]) != 0 {
        OrderedCons(letters[0], tail);
      }
    }
  }

  /** A letter ordered before every letter of an ordered string can go in
      front of it. */
  lemma OrderedCons(x: char, tail: string)
    requires CastlesOrdered(tail) && forall k :: 0 <= k < |tail| ==> CastleOrder(x) < CastleOrder(tail[k])
    ensures CastlesOrdered([x] + tail)
  {
    var r := [x] + tail;
    forall i, j | 0 <= i < j < |r| ensures CastleOrder(r[i]) < CastleOrder(r[j]) {
      assert r[j] == tail[j - 1];
      if i > 0 {
        assert r[i] == tail[i - 1];
      }
    }
  }

  /** No letter is kept exactly when none of the four bits is set. */
  lemma NoneKept(state: bv8)
    ensures KeptRights("KQkq", state) == [] <==> state & 15 == 0
  {
    var r := KeptRights("KQkq", state);
    NoLowBits(state);
    if r == [] {
      assert state & 8 == 0 by { KeptRightsMembership("KQkq", state, 'K'); }
      assert state & 4 == 0 by { KeptRightsMembership("KQkq", state, 'Q'); }
      assert state & 2 == 0 by { KeptRightsMembership("KQkq", state, 'k'); }
      assert state & 1 == 0 by { KeptRightsMembership("KQkq", state, 'q'); }
    } else {
      assert r[0] in "KQkq" && state & CastleBit(r[0]) != 0 by {
        KeptRightsMembership("KQkq", state, r[0]);
      }
    }
  }

  lemma NoLowBits(state: bv8)
    ensures state & 15 == 0 <==> state & 8 == 0 && state & 4 == 0 && state & 2 == 0 && state & 1 == 0
  {}

  /** get_fen_castles lists exactly the letters whose bit is set, each once,
      in the order `KQkq`, and writes `-` exactly when no bit of the four is
      set. */
  lemma GetFenCastlesShape(state: bv8)
    ensures GetFenCastles(state) == "-" <==> state & 15 == 0
    ensures state & 15 != 0 ==> forall c :: c in GetFenCastles(state) <==> IsCastleLetter(c) && state & CastleBit(c) != 0
    ensures state & 15 != 0 ==> CastlesOrdered(GetFenCastles(state))
  {
    CastlesDash(state);
    if state & 15 != 0 {
      CastlesLetters(state);
      var order := "KQkq";
      assert CastlesOrdered(KeptRights(order, state)) by {
        CastleOrderLetters();
        KeptRightsOrdered(order, state);
      }
    }
  }

  lemma CastlesDash(state: bv8)
    ensures GetFenCastles(state) == "-" <==> state & 15 == 0
    ensures state & 15 != 0 ==> GetFenCastles(state) == KeptRights("KQkq", state)
  {
    NoneKept(state);
    if state & 15 != 0 {
      KeptRightsMembership("KQkq", state, '-');
    }
  }

  lemma CastlesLetters(state: bv8)
    ensures forall c :: c in KeptRights("KQkq", state) <==> IsCastleLetter(c) && state & CastleBit(c) != 0
  {
    forall c ensures c in KeptRights("KQkq", state) <==> IsCastleLetter(c) && state & CastleBit(c) != 0 {
      KeptRightsMembership("KQkq", state, c);
    }
  }

  /** Round trip of the castling field: parsing what get_fen_castles writes
      restores the four castling bits. */
  lemma CastlesRoundTrip(state: bv8)
    ensures CastlingBits(GetFenCastles(state)) == state & 15
  {
    CastlesDash(state);
    if state & 15 == 0 {
      assert "-"[..0] == [];
    } else {
      LettersRoundTrip(state);
    }
  }

  lemma LettersRoundTrip(state: bv8)
    ensures CastlingBits(KeptRights("KQkq", state)) == state & 15
  {
    var s := KeptRights("KQkq", state);
    CastlingBitsMembership(s);
    CastlesLetters(state);
    var x := CastlingBits(s);
    assert CastleBit('K') == 8 && CastleBit('Q') == 4 && CastleBit('k') == 2 && CastleBit('q') == 1;
    assert IsCastleLetter('K') && IsCastleLetter('Q') && IsCastleLetter('k') && IsCastleLetter('q');
    FourBits(x, state);
  }

  lemma FourBits(x: bv8, y: bv8)
    requires x & 0xF0 == 0
    requires (x & 8 != 0 <==> y & 8 != 0) && (x & 4 != 0 <==> y & 4 != 0)
    requires (x & 2 != 0 <==> y & 2 != 0) && (x & 1 != 0 <==> y & 1 != 0)
    ensures x == y & 15
  {}

  /** What get_fen_castles writes passes valid_fen's unique_chars check. */
  lemma SerialisedCastlesUnique(state: bv8)
    ensures NoRepeats(GetFenCastles(state))
  {
    GetFenCastlesShape(state);
  }

  /** The letters of `letters` that occur in `s`, in the order of `letters`. */
  function LettersIn(letters: string, s: string): string
    decreases |letters|
  {
    if letters == [] then []
    else (if letters[0] in s then [letters[0]] else []) + LettersIn(letters[1..], s)
  }

  lemma {:induction false} LettersInMembership(letters: string, s: string, c: char)
    ensures c in LettersIn(letters, s) <==> c in letters && c in s
    decreases |letters|
  {
    if letters != [] {
      LettersInMembership(letters[1..], s, c);
      assert letters == [letters[0]] + letters[1..];
    }
  }

  /** The letters appear in strictly increasing `KQkq` order. */
  predicate CastlesOrdered(s: string) {
    forall i, j :: 0 <= i < j < |s| ==> CastleOrder(s[i]) < CastleOrder(s[j])
  }

  /** Keeping the castling letters whose bit the parsed field sets keeps
      exactly those that occur in the field. */
  lemma {:induction false} KeptRightsOfField(letters: string, s: string)
    requires forall i :: 0 <= i < |letters| ==> IsCastleLetter(letters[i])
    ensures KeptRights(letters, CastlingBits(s)) == LettersIn(letters, s)
    decreases |letters|
  {
    if letters != [] {
      CastlingBitsMembership(s);
      KeptRightsOfField(letters[1..], s);
    }
  }

  /** Two strings of castling letters in `KQkq` order that hold the same
      letters are the same string. */
  lemma {:induction false} OrderedLettersUnique(a: string, b: string)
    requires forall i :: 0 <= i < |a| ==> IsCastleLetter(a[i])
    requires forall i :: 0 <= i < |b| ==> IsCastleLetter(b[i])
    requires CastlesOrdered(a) && CastlesOrdered(b)
    requires forall c :: c in a <==> c in b
    ensures a == b
    decreases |a|
  {
    SameLettersEmpty(a, b);
    if a != [] {
      assert a[0] == b[0] by {
        assert a[0] in b;
        var j :| 0 <= j < |b| && b[j] == a[0];
        assert b[0] in a;
        var i :| 0 <= i < |a| && a[i] == b[0];
        assert CastleOrder(a[0]) <= CastleOrder(a[i]) && CastleOrder(b[0]) <= CastleOrder(b[j]);
      }
      OrderedTail(a);
      OrderedTail(b);
      OrderedLettersUnique(a[1..], b[1..]);
      assert a == [a[0]] + a[1..] && b == [b[0]] + b[1..];
    }
  }

  lemma SameLettersEmpty(a: string, b: string)
    requires forall c :: c in a <==> c in b
    ensures a == [] <==> b == []
  {
    if a != [] {
      assert a[0] in b;
    }
    if b != [] {
      assert b[0] in a;
    }
  }

  /** Past the first letter of an ordered string come the other letters,
      still in order. */
  lemma OrderedTail(a: string)
    requires a != [] && CastlesOrdered(a)
    ensures CastlesOrdered(a[1..]) && forall i :: 0 <= i < |a[1..]| ==> a[1..][i] == a[i + 1]
    ensures forall c :: c in a[1..] <==> c in a && c != a[0]
  {
    var a' := a[1..];
    assert forall k :: 0 <= k < |a'| ==> a'[k] == a[k + 1];
    assert a == [a[0]] + a';
  }

  /** Parse then write for the castling field: get_fen_castles, applied to
      the rights parse_castling_rights leaves for a field, writes the
      castling letters of the field, each once, in `KQkq` order (`-` when
      there is none); so a field of castling letters already in that order
      comes back unchanged. */
  lemma {:induction false} CastlesParseThenWrite(s: string)
    ensures GetFenCastles(CastlingBits(s)) == if LettersIn("KQkq", s) == [] then "-" else LettersIn("KQkq", s)
    ensures forall c :: IsCastleLetter(c) ==> (c in GetFenCastles(CastlingBits(s)) <==> c in s)
    ensures s != [] && (forall i :: 0 <= i < |s| ==> IsCastleLetter(s[i])) && CastlesOrdered(s) ==>
              GetFenCastles(CastlingBits(s)) == s
  {
    var kept := LettersIn("KQkq", s);
    var out := GetFenCastles(CastlingBits(s));
    assert out == if kept == [] then "-" else kept by {
      KeptCastlesOfField(s);
    }
    forall c | IsCastleLetter(c) ensures c in out <==> c in s {
      KeptCastlesOfField(s);
      if kept == [] {
        assert c !in kept;
      }
    }
    if s != [] && (forall i :: 0 <= i < |s| ==> IsCastleLetter(s[i])) && CastlesOrdered(s) {
      OrderedFieldKept(s);
    }
  }

  lemma {:induction false} KeptCastlesOfField(s: string)
    ensures KeptRights("KQkq", CastlingBits(s)) == LettersIn("KQkq", s)
    ensures forall c :: c in LettersIn("KQkq", s) <==> IsCastleLetter(c) && c in s
  {
    var order := "KQkq";
    assert forall i :: 0 <= i < |order| ==> IsCastleLetter(order[i]) by {
      assert order == ['K', 'Q', 'k', 'q'];
    }
    KeptRightsOfField(order, s);
    forall c ensures c in LettersIn(order, s) <==> IsCastleLetter(c) && c in s {
      LettersInMembership(order, s, c);
      assert c in order <==> IsCastleLetter(c) by {
        assert order == ['K', 'Q', 'k', 'q'];
      }
    }
  }

  lemma {:induction false} OrderedFieldKept(s: string)
    requires forall i :: 0 <= i < |s| ==> IsCastleLetter(s[i])
    requires CastlesOrdered(s)
    ensures LettersIn("KQkq", s) == s
  {
    var kept := LettersIn("KQkq", s);
    forall c ensures c in kept <==> c in s {
      KeptCastlesOfField(s);
      if c in s {
        var i :| 0 <= i < |s| && s[i] == c;
      }
    }
    KeptCastlesShape(s);
    OrderedLettersUnique(kept, s);
  }

  /** The kept letters are castling letters in `KQkq` order. */
  lemma {:induction false} KeptCastlesShape(s: string)
    ensures var kept := LettersIn("KQkq", s);
            (forall i :: 0 <= i < |kept| ==> IsCastleLetter(kept[i])) && CastlesOrdered(kept)
  {
    var order := "KQkq";
    var kept := LettersIn(order, s);
    assert CastlesOrdered(kept) by {
      CastleOrderLetters();
      KeptRightsOfField(order, s);
      KeptRightsOrdered(order, CastlingBits(s));
    }
    forall i | 0 <= i < |kept| ensures IsCastleLetter(kept[i]) {
      LettersInMembership(order, s, kept[i]);
      assert order == ['K', 'Q', 'k', 'q'];
    }
  }

  /** What the serialisers write for the placement and castling fields
      passes the structural checks of valid_fen. */
  lemma SerialisedFieldsValid(b: Bitboards, state: bv8)
    ensures FenFieldsValid(FenPlacementOf(b), GetFenCastles(state))
  {
    SerialisedPlacementValid(b);
    SerialisedCastlesUnique(state);
  }

  // ---------------------------------------------------------------- en passant

  /** get_fen_passant on the en-passant field: 0 is `-`; 1 + square for a
      square of the board is its file letter (upper case) and rank digit;
      anything above 64 panics. */
  function GetFenPassant(passant: u8): (r: Outcome<string>)
    ensures r.Panicked? <==> passant > 64
    ensures passant == 0 ==> r == Returned("-")
    ensures 1 <= passant <= 64 ==>
      && |r.value| == 2 && 'A' <= r.value[0] <= 'H'
      && IsDigit(r.value[1]) && 1 <= DigitValue(r.value[1]) <= 8
  {
    if passant == 0 then Returned("-")
    else if passant <= 64 then
      var row := (passant - 1) / 8 + 1;
      var col := (passant - 1) % 8;
      Returned([('A' as int + col as int) as char, DigitChar(row as nat)])
    else Panicked
  }

  /** `to_ascii_uppercase`. */
  function ToAsciiUpper(c: char): char {
    if 'a' <= c <= 'z' then (c as int - 32) as char else c
  }

  /** The column value of an upper-case file letter: A = 1 ... H = 8, any
      other character 0. */
  function ColValue(c: char): (v: u8)
    ensures v <= 8
  {
    match c
    case 'A' => 1
    case 'B' => 2
    case 'C' => 3
    case 'D' => 4
    case 'E' => 5
    case 'F' => 6
    case 'G' => 7
    case 'H' => 8
    case _ => 0
  }

  /** The en-passant field parse_en_passant leaves, from the field's text
      and the current value: with a first character and a decimal digit
      second, a row digit 1 to 8 gives the column value plus 8 per row
      above the first and any other digit leaves the value unchanged; with
      no first character or no digit second, 0. */
  function PassantAfter(s: string, current: u8): (r: u8)
    ensures r <= 64 || r == current
    ensures |s| >= 2 && IsDigit(s[1]) && !(1 <= DigitValue(s[1]) <= 8) ==> r == current
    ensures !(|s| >= 2 && IsDigit(s[1])) ==> r == 0
  {
    if |s| >= 2 && IsDigit(s[1]) then
      var row := DigitValue(s[1]);
      if 1 <= row <= 8 then ColValue(ToAsciiUpper(s[0])) + 8 * (row as u8 - 1) else current
    else 0
  }

  /** parse_en_passant. */
  method ParseEnPassant(cb: Chessboard, enPassant: string)
    modifies cb
    ensures cb.enPassant == PassantAfter(enPassant, old(cb.enPassant))
    ensures cb.pieces == old(cb.pieces) && cb.castlingRights == old(cb.castlingRights) && cb.whiteTurn == old(cb.whiteTurn)
  {
    if |enPassant| >= 2 && IsDigit(enPassant[1]) {
      var col := ToAsciiUpper(enPassant[0]);
      var row := DigitValue(enPassant[1]);
      if 1 <= row <= 8 {
        cb.enPassant := ColValue(col) + 8 * (row as u8 - 1);
      }
    } else {
      cb.enPassant := 0;
    }
  }

  /** Round trip of the en-passant field: parsing what get_fen_passant
      writes restores every value 0 to 64, whatever the field held before. */
  lemma PassantRoundTrip(passant: u8, current: u8)
    requires passant <= 64
    ensures GetFenPassant(passant).Returned?
    ensures PassantAfter(GetFenPassant(passant).value, current) == passant
  {
    if passant > 0 {
      var s := GetFenPassant(passant).value;
      var col := (passant - 1) % 8;
      assert ToAsciiUpper(s[0]) == s[0];
      assert ColValue(s[0]) == col + 1;
    }
  }

  /** The en-passant group `(-|[a-h][1-8])` of valid_fen's regular
      expression. */
  predicate PassantFieldValid(s: string) {
    s == "-" || (|s| == 2 && 'a' <= s[0] <= 'h' && '1' <= s[1] <= '8')
  }

  /** get_fen_passant writes the file in upper case (line 196): for the
      square e3 it writes `E3`, which valid_fen's en-passant group rejects. */
  lemma PassantWrittenUpperCase()
    ensures GetFenPassant(21) == Returned("E3")
    ensures !PassantFieldValid("E3")
  {
    assert DigitChar(3) == '3';
  }

  /** get_fen_passant as evidently intended: the file letter in lower case,
      as the algebraic notation parse_en_passant documents. */
  function GetFenPassantIntended(passant: u8): Outcome<string> {
    if passant == 0 then Returned("-")
    else if passant <= 64 then
      var row := (passant - 1) / 8 + 1;
      var col := (passant - 1) % 8;
      Returned([('a' as int + col as int) as char, DigitChar(row as nat)])
    else Panicked
  }

  /** The corrected writer gives, for every value 0 to 64, a field that
      valid_fen accepts and that parse_en_passant reads back to the value,
      whatever the field held before. */
  lemma PassantIntendedRoundTrip(passant: u8, current: u8)
    requires passant <= 64
    ensures GetFenPassantIntended(passant).Returned?
    ensures PassantFieldValid(GetFenPassantIntended(passant).value)
    ensures PassantAfter(GetFenPassantIntended(passant).value, current) == passant
  {
    if passant > 0 {
      var s := GetFenPassantIntended(passant).value;
      var col := (passant - 1) % 8;
      assert ToAsciiUpper(s[0]) == ('A' as int + col as int) as char;
      assert ColValue(ToAsciiUpper(s[0])) == col + 1;
    }
  }

  // ---------------------------------------------------------------- side to move

  /** parse_whose_turn: White moves exactly when the field is `w`. */
  method ParseWhoseTurn(cb: Chessboard, whoseTurn: string)
    modifies cb
    ensures cb.whiteTurn <==> whoseTurn == "w"
    ensures cb.pieces == old(cb.pieces) && cb.castlingRights == old(cb.castlingRights) && cb.enPassant == old(cb.enPassant)
  {
    cb.whiteTurn := whoseTurn == "w";
  }
}
