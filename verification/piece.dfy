/** The geometric move predicates of src/board/piece.rs: pure integer tests
    on two square indices (a1 = 0 ... h8 = 63), taking no account of other
    pieces. Rust's `/` and `%` on i64 truncate toward zero; they are written
    out as TDiv and TMod. */
module Piece {
  import opened Board

  /** i64 `%` by a positive divisor: smaller than `b` in size, with the
      sign of `a`. */
  function TMod(a: int, b: int): (r: int)
    requires b > 0
    ensures 0 <= a ==> 0 <= r < b
    ensures a < 0 ==> -b < r <= 0
  {
    if a >= 0 then a % b else -((-a) % b)
  }

  /** i64 `/` by a positive divisor: together with TMod it splits `a` into
      a multiple of `b` and a remainder with the sign of `a`, so it
      truncates toward zero. */
  function TDiv(a: int, b: int): (q: int)
    requires b > 0
    ensures a == q * b + TMod(a, b)
  {
    if a >= 0 then a / b
    else
      var n := -a;
      NegateProduct(n / b, b);
      -(n / b)
  }

  lemma NegateProduct(x: int, y: int)
    ensures (-x) * y == -(x * y)
  {}

  lemma ProductAtLeast(x: int, y: int)
    requires x >= 1 && y > 0
    ensures x * y >= y
    decreases x
  {
    if x > 1 {
      ProductAtLeast(x - 1, y);
      assert x * y == (x - 1) * y + y;
    }
  }

  /** TDiv and TMod are the only quotient and remainder with the contracts
      above. */
  lemma TruncationUnique(a: int, b: int, q: int, r: int)
    requires b > 0 && a == q * b + r
    requires 0 <= a ==> 0 <= r < b
    requires a < 0 ==> -b < r <= 0
    ensures q == TDiv(a, b) && r == TMod(a, b)
  {
    var q', r' := TDiv(a, b), TMod(a, b);
    var d := q - q';
    assert d * b == r' - r by {
      assert d * b == q * b - q' * b;
    }
    NegateProduct(d, b);
    if d > 0 {
      ProductAtLeast(d, b);
    } else if d < 0 {
      ProductAtLeast(-d, b);
    }
  }

  /** Truncation is symmetric about zero: negating the dividend negates the
      quotient and the remainder (Euclidean division is not). */
  lemma TruncationIsOdd(a: int, b: int)
    requires b > 0
    ensures TDiv(-a, b) == -TDiv(a, b) && TMod(-a, b) == -TMod(a, b)
  {
    if a != 0 {
      var q, r := TDiv(a, b), TMod(a, b);
      assert -a == (-q) * b + (-r) by {
        NegateProduct(q, b);
      }
      TruncationUnique(-a, b, -q, -r);
    }
  }

  /** `Chessboard::square_to_rank`: the rank 1..8 of a square. */
  function SquareToRank(sq: int): int {
    TDiv(sq, 8) + 1
  }

  predicate LegalPawn(white: bool, from: int, to: int) {
    var rank := SquareToRank(from);
    var direction := if white then 1 else -1;
    var initialRank := if white then 2 else 7;
    var diff := to - from;
    if diff == 8 * direction then true
    else rank == initialRank && diff == 16 * direction
  }

  predicate LegalRook(from: int, to: int) {
    TMod(to, 8) == TMod(from, 8) || TDiv(to, 8) == TDiv(from, 8)
  }

  predicate LegalBishop(from: int, to: int) {
    var fromColor := TMod(TDiv(from, 8) + TMod(from, 8), 2) == 0;
    var toColor := TMod(TDiv(to, 8) + TMod(to, 8), 2) == 0;
    if fromColor == toColor then
      var diff := Abs(to - from);
      TMod(diff, 7) == 0 || TMod(diff, 9) == 0
    else false
  }

  predicate LegalKing(from: int, to: int) {
    if from < to then to == from + 1 || to == from + 9 || to == from + 8 || to == from + 7
    else to == from - 1 || to == from - 8 || to == from - 9 || to == from - 7
  }

  /** As written: a conjunction of the bishop and rook tests. */
  predicate LegalQueen(from: int, to: int) {
    LegalBishop(from, to) && LegalRook(from, to)
  }

  predicate LegalKnight(from: int, to: int) {
    if from < to then to == from + 17 || to == from + 15 || to == from + 10 || to == from + 6
    else to == from - 10 || to == from - 6 || to == from - 17 || to == from - 15
  }

  // ---------------------------------------------------------------- board geometry

  /** `to` lies on a diagonal through `from` (or is `from`). */
  predicate SameDiagonal(from: int, to: int) {
    Abs(Row(to) - Row(from)) == Abs(File(to) - File(from))
  }

  // ---------------------------------------------------------------- rook

  /** On the board, the rook test holds exactly for squares on the same file
      or the same row. */
  lemma LegalRookOnBoard(from: int, to: int)
    requires OnBoard(from) && OnBoard(to)
    ensures LegalRook(from, to) <==> File(to) == File(from) || Row(to) == Row(from)
  {}

  // ---------------------------------------------------------------- bishop

  /** A multiple of 7 in row-and-file terms: 8x + y = 7x + (x + y). */
  lemma MultipleOfSeven(x: int, y: int)
    requires -7 <= x <= 7 && -7 <= y <= 7
    ensures (8 * x + y) % 7 == 0 <==> x + y in {-14, -7, 0, 7, 14}
  {
    var z := x + y;
    assert 8 * x + y == 7 * x + z;
    assert (7 * x + z) % 7 == z % 7;
  }

  /** A multiple of 9 in row-and-file terms: 8x + y = 9x + (y - x). */
  lemma MultipleOfNine(x: int, y: int)
    requires -7 <= x <= 7 && -7 <= y <= 7
    ensures (8 * x + y) % 9 == 0 <==> y - x in {-9, 0, 9}
  {
    var z := y - x;
    assert 8 * x + y == 9 * x + z;
    assert (9 * x + z) % 9 == z % 9;
  }

  /** The arithmetic behind the bishop test: for row and file differences
      within the board, "same colour and a difference divisible by 7 or 9"
      means a diagonal step. */
  lemma DiagonalArithmetic(x: int, y: int)
    requires -7 <= x <= 7 && -7 <= y <= 7
    ensures ((x + y) % 2 == 0 && ((8 * x + y) % 7 == 0 || (8 * x + y) % 9 == 0)) <==> (x == y || x == -y)
  {
    MultipleOfSeven(x, y);
    MultipleOfNine(x, y);
  }

  lemma AbsModulus(d: int)
    ensures Abs(d) % 7 == 0 <==> d % 7 == 0
    ensures Abs(d) % 9 == 0 <==> d % 9 == 0
  {}

  /** On the board, the bishop test holds exactly for squares on a common
      diagonal, `from` itself included: the colour test rules out the
      wrap-around differences of 7 and 9. */
  lemma LegalBishopOnBoard(from: int, to: int)
    requires OnBoard(from) && OnBoard(to)
    ensures LegalBishop(from, to) <==> SameDiagonal(from, to)
  {
    var x, y := Row(to) - Row(from), File(to) - File(from);
    assert to - from == 8 * x + y;
    DiagonalArithmetic(x, y);
    AbsModulus(to - from);
    SameColour(from, to);
  }

  /** Two squares have the same colour when their row-and-file differences
      sum to an even number. */
  lemma SameColour(from: int, to: int)
    requires OnBoard(from) && OnBoard(to)
    ensures (TMod(TDiv(from, 8) + TMod(from, 8), 2) == 0) == (TMod(TDiv(to, 8) + TMod(to, 8), 2) == 0)
            <==> (Row(to) - Row(from) + File(to) - File(from)) % 2 == 0
  {
    var a, b := Row(from) + File(from), Row(to) + File(to);
    assert TMod(TDiv(from, 8) + TMod(from, 8), 2) == a % 2;
    assert TMod(TDiv(to, 8) + TMod(to, 8), 2) == b % 2;
  }

  // ---------------------------------------------------------------- queen

  /** As written, the queen test holds on the board only from a square to
      itself: no square other than `from` shares both a line and a diagonal
      with it. */
  lemma LegalQueenOnBoard(from: int, to: int)
    requires OnBoard(from) && OnBoard(to)
    ensures LegalQueen(from, to) <==> from == to
  {
    LegalBishopOnBoard(from, to);
    LegalRookOnBoard(from, to);
    if LegalQueen(from, to) {
      assert from == 8 * Row(from) + File(from) && to == 8 * Row(to) + File(to);
    }
  }

  /** The queen test as evidently intended: a bishop move or a rook move. */
  predicate LegalQueenIntended(from: int, to: int) {
    LegalBishop(from, to) || LegalRook(from, to)
  }

  /** On the board, the intended queen test holds exactly for squares on a
      common file, row or diagonal. */
  lemma LegalQueenIntendedOnBoard(from: int, to: int)
    requires OnBoard(from) && OnBoard(to)
    ensures LegalQueenIntended(from, to) <==> SameDiagonal(from, to) || File(to) == File(from) || Row(to) == Row(from)
  {
    LegalBishopOnBoard(from, to);
    LegalRookOnBoard(from, to);
  }

  /** a1 to a2: a queen move the written test rejects. */
  lemma QueenConjunctionRejectsRookMove()
    ensures !LegalQueen(0, 8) && LegalQueenIntended(0, 8)
  {
    LegalQueenOnBoard(0, 8);
    LegalRookOnBoard(0, 8);
  }

  // ---------------------------------------------------------------- king and knight

  /** The king test holds exactly for a distance of 1, 7, 8 or 9, so never
      from a square to itself. */
  lemma LegalKingDistance(from: int, to: int)
    ensures LegalKing(from, to) <==> Abs(to - from) in {1, 7, 8, 9}
  {}

  /** The knight test holds exactly for a distance of 6, 10, 15 or 17. */
  lemma LegalKnightDistance(from: int, to: int)
    ensures LegalKnight(from, to) <==> Abs(to - from) in {6, 10, 15, 17}
  {}

  /** A king step as evidently intended: to another square at most one row
      and one file away. */
  predicate LegalKingIntended(from: int, to: int) {
    && OnBoard(from) && OnBoard(to) && from != to
    && Abs(Row(to) - Row(from)) <= 1 && Abs(File(to) - File(from)) <= 1
  }

  /** On the board the intended king test is the written one without the
      wrap-around: the written test accepts every king step, and rejects
      nothing else whose file is at most one away. */
  lemma LegalKingIntendedExact(from: int, to: int)
    requires OnBoard(from) && OnBoard(to)
    ensures LegalKingIntended(from, to) <==> LegalKing(from, to) && Abs(File(to) - File(from)) <= 1
  {
    var x, y := Row(to) - Row(from), File(to) - File(from);
    assert to - from == 8 * x + y;
    LegalKingDistance(from, to);
  }

  /** h1 to a2 passes the written king test: it wraps around the board. */
  lemma KingWrapsAround()
    ensures LegalKing(7, 8) && !LegalKingIntended(7, 8)
  {}

  /** A knight jump as evidently intended: two rows and one file apart, or
      one row and two files. */
  predicate LegalKnightIntended(from: int, to: int) {
    var dr, df := Abs(Row(to) - Row(from)), Abs(File(to) - File(from));
    OnBoard(from) && OnBoard(to) && ((dr == 1 && df == 2) || (dr == 2 && df == 1))
  }

  /** On the board the intended knight test is the written one without the
      wrap-around: the files must be one or two apart. */
  lemma LegalKnightIntendedExact(from: int, to: int)
    requires OnBoard(from) && OnBoard(to)
    ensures LegalKnightIntended(from, to) <==> LegalKnight(from, to) && 1 <= Abs(File(to) - File(from)) <= 2
  {
    var x, y := Row(to) - Row(from), File(to) - File(from);
    assert to - from == 8 * x + y;
    LegalKnightDistance(from, to);
  }

  /** a1 to g1 passes the written knight test: six files over on the same
      row. */
  lemma KnightWrapsAround()
    ensures LegalKnight(0, 6) && !LegalKnightIntended(0, 6)
  {}

  // ---------------------------------------------------------------- pawn

  lemma RankTwoSquares(sq: int)
    ensures SquareToRank(sq) == 2 <==> 8 <= sq < 16
    ensures SquareToRank(sq) == 7 <==> 48 <= sq < 56
  {}

  /** The pawn test allows one row forward from anywhere, two rows forward
      only from the pawn's second row (squares 8..15 for White, 48..55 for
      Black), and nothing else: never a capture, never backwards. */
  lemma LegalPawnSteps(white: bool, from: int, to: int)
    ensures white ==> (LegalPawn(white, from, to) <==> to == from + 8 || (to == from + 16 && 8 <= from < 16))
    ensures !white ==> (LegalPawn(white, from, to) <==> to == from - 8 || (to == from - 16 && 48 <= from < 56))
  {
    RankTwoSquares(from);
  }
}
