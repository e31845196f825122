/** Where possible_*_moves (engine/src/move_generation.rs) disagrees with
    the moves it evidently means to generate: each discrepancy is shown on a
    concrete position against the as-written model of MoveGeneration, and a
    corrected generator is given beside it with the intended property proved. */
module MoveFindings {
  import opened Board
  import opened Ranges
  import opened MoveGeneration

  /** `target + side` steps one file over without wrapping when the origin's
      file plus `side` is still a file; the row is kept. */
  lemma FileStep(target: int, from: int, rows: int, side: int)
    requires OnBoard(from) && target == from + 8 * rows + side && 0 <= File(from) + side < 8
    ensures Row(target) == Row(from) + rows && File(target) == File(from) + side
  {
    assert target == 8 * (Row(from) + rows) + (File(from) + side);
  }

  /** The scan keeps squares of its range only. */
  lemma RayScanWithin(range: seq<int>, own: set<int>, opps: set<int>)
    ensures forall t :: t in RayScan(range, own, opps) ==> t in range
  {
    RayScanStopsAtFirstPiece(range, own, opps);
    var r := RayScan(range, own, opps);
    forall t | t in r ensures t in range {
      var i :| 0 <= i < |r| && r[i] == t;
      assert range[i] == t;
    }
  }

  /** Every square of the range that can be reached is scanned. */
  lemma ScanKeepsReached(range: seq<int>, own: set<int>, opps: set<int>)
    ensures forall k :: Reaches(range, k, own, opps) ==> range[k] in RayScan(range, own, opps)
  {
    RayScanReach(range, own, opps);
    RayScanStopsAtFirstPiece(range, own, opps);
    var r := RayScan(range, own, opps);
    forall k | Reaches(range, k, own, opps) ensures range[k] in r {
      assert r[k] == range[k];
    }
  }

  // ---------------------------------------------------------------- pawn

  /** The intended moves of a pawn: one row forward onto an empty square;
      two rows forward from its second row when both squares are empty; one
      row forward and one file over onto an opponent piece. */
  ghost predicate PawnMove(from: int, white: bool, opps: set<int>, taken: set<int>, t: int) {
    var dir := Dir(white);
    && OnBoard(t)
    && ( (t == from + 8 * dir && t !in taken)
      || (t == from + 16 * dir && Row(from) == (if white then 1 else 6) && from + 8 * dir !in taken && t !in taken)
      || (Row(t) == Row(from) + dir && Abs(File(t) - File(from)) == 1 && t in opps))
  }

  /** The capture one row forward and one file over (`side` is -1 or 1),
      when that file exists and the square holds an opponent piece. */
  function DiagonalCapture(from: int, dir: int, side: int, opps: set<int>): seq<int> {
    var target := from + 8 * dir + side;
    if 0 <= File(from) + side < 8 && OnBoard(target) && target in opps then [target] else []
  }

  /** possible_pawn_moves as evidently intended: the push onto an empty
      square, the double step from the pawn's second row, and the two
      captures in the source's order, with no panic and no wrap at the edge
      files. */
  function PawnIntended(from: int, white: bool, opps: set<int>, taken: set<int>): seq<int> {
    var dir := Dir(white);
    var forward, double := from + 8 * dir, from + 16 * dir;
    var pushes :=
      if OnBoard(forward) && forward !in taken then
        [forward] + (if Row(from) == (if white then 1 else 6) && double !in taken then [double] else [])
      else [];
    pushes + DiagonalCapture(from, dir, -dir, opps) + DiagonalCapture(from, dir, dir, opps)
  }

  /** The corrected pawn generator gives exactly the intended pawn moves. */
  lemma PawnIntendedMoves(from: int, white: bool, opps: set<int>, taken: set<int>)
    requires OnBoard(from)
    ensures forall t :: t in PawnIntended(from, white, opps, taken) <==> PawnMove(from, white, opps, taken, t)
  {
    var dir := Dir(white);
    forall t ensures t in PawnIntended(from, white, opps, taken) <==> PawnMove(from, white, opps, taken, t) {
      PawnCaptureExact(from, dir, -1, opps, t);
      PawnCaptureExact(from, dir, 1, opps, t);
    }
  }

  /** A target one row forward and one file over is one of the two
      diagonal captures. */
  lemma PawnCaptureExact(from: int, dir: int, side: int, opps: set<int>, t: int)
    requires OnBoard(from) && (dir == 1 || dir == -1) && (side == 1 || side == -1)
    ensures t in DiagonalCapture(from, dir, side, opps) <==>
              OnBoard(t) && Row(t) == Row(from) + dir && File(t) == File(from) + side && t in opps
  {
    if 0 <= File(from) + side < 8 {
      FileStep(from + 8 * dir + side, from, dir, side);
    }
    if OnBoard(t) && Row(t) == Row(from) + dir && File(t) == File(from) + side {
      assert t == 8 * Row(t) + File(t);
    }
  }

  /** The push fires on an occupied square (move_generation.rs line 59): on
      an empty board a white pawn on b2 gets no move, although b3 is one. */
  lemma PawnPushNeedsBlocker()
    ensures PawnOutcome(9, true, {}, {}) == Returned([])
    ensures PawnMove(9, true, {}, {}, 17)
    ensures PawnIntended(9, true, {}, {}) == [17, 25]
  {}

  /** The double step is tried from the second file, not the second row
      (lines 48 and 61): a white pawn on b3 with b4 and b5 occupied is given
      b5, two rows ahead from its third row. */
  lemma PawnDoubleStepByFile()
    ensures PawnOutcome(17, true, {}, {25, 33}) == Returned([25, 33])
    ensures !PawnMove(17, true, {}, {25, 33}, 33)
  {
    assert ForwardPushes(17, true, {25, 33}) == [25, 33];
    assert PawnPushes(17, true, {}, {25, 33}) == [25, 33];
    assert KeepOnBoard([33]) == [33] + KeepOnBoard([]);
    assert KeepOnBoard([25, 33]) == [25] + KeepOnBoard([33]);
    assert !PawnPanics(17, true, {25, 33});
    assert PawnOutcome(17, true, {}, {25, 33}) == Returned(KeepOnBoard(PawnPushes(17, true, {}, {25, 33})));
    assert KeepOnBoard(PawnPushes(17, true, {}, {25, 33})) == [25, 33];
  }

  /** `1 << forward` panics for a pawn on its last row (line 59), where the
      generator has no move to give. */
  lemma PawnLastRowPanics()
    ensures PawnOutcome(57, true, {}, {}) == Panicked
    ensures PawnIntended(57, true, {}, {}) == []
  {}

  /** The diagonal `from + 7 * direction` wraps from the a-file to the
      h-file (lines 55 and 67): a white pawn on a2 captures on h2. */
  lemma PawnCaptureWraps()
    ensures PawnOutcome(8, true, {15}, {15}) == Returned([15])
    ensures !PawnMove(8, true, {15}, {15}, 15)
  {
    assert ForwardPushes(8, true, {15}) == [];
    assert Capture(15, {15}) == [15] && Capture(17, {15}) == [];
    assert PawnPushes(8, true, {15}, {15}) == [15];
    assert KeepOnBoard([15]) == [15] + KeepOnBoard([]);
    assert !PawnPanics(8, true, {15});
    assert PawnOutcome(8, true, {15}, {15}) == Returned(KeepOnBoard(PawnPushes(8, true, {15}, {15})));
    assert KeepOnBoard(PawnPushes(8, true, {15}, {15})) == [15];
  }

  // ---------------------------------------------------------------- rook

  /** The downward rook ray as evidently intended: the origin's file below
      it, nearest first. */
  function DownRayIntended(from: int): seq<int>
    requires OnBoard(from)
  {
    Arith(from - 8, -8, Row(from))
  }

  /** The corrected downward ray walks the origin's file one row at a time
      and holds exactly the squares of that file below the origin. */
  lemma DownRayIntendedGeometry(from: int)
    requires OnBoard(from)
    ensures var r := DownRayIntended(from);
      && (forall i :: 0 <= i < |r| ==> OnBoard(r[i]) && File(r[i]) == File(from) && Row(r[i]) == Row(from) - (i + 1))
      && (forall t :: t in r <==> OnBoard(t) && File(t) == File(from) && t < from)
  {
    var r := DownRayIntended(from);
    forall i | 0 <= i < |r| ensures OnBoard(r[i]) && File(r[i]) == File(from) && Row(r[i]) == Row(from) - (i + 1) {
      assert r[i] == 8 * (Row(from) - (i + 1)) + File(from);
    }
    forall t | OnBoard(t) && File(t) == File(from) && t < from ensures t in r {
      var i := Row(from) - Row(t) - 1;
      assert t == 8 * Row(t) + File(t);
      assert r[i] == t;
    }
  }

  /** The rook targets with the corrected downward ray. */
  function RookTargetsIntended(from: int, own: set<int>, opps: set<int>): seq<int>
    requires OnBoard(from)
  {
    RayScan(LeftRay(from), own, opps) + RayScan(RightRay(from), own, opps)
      + RayScan(UpRay(from), own, opps) + RayScan(DownRayIntended(from), own, opps)
  }

  /** Every corrected rook target is another square of the origin's row or
      file, and is not own-occupied. */
  lemma RookIntendedOnLines(from: int, own: set<int>, opps: set<int>)
    requires OnBoard(from)
    ensures forall t :: t in RookTargetsIntended(from, own, opps) ==>
              OnBoard(t) && t != from && t !in own && (Row(t) == Row(from) || File(t) == File(from))
  {
    RookRayGeometry(from);
    DownRayIntendedGeometry(from);
    RayScanWithin(LeftRay(from), own, opps);
    RayScanWithin(RightRay(from), own, opps);
    RayScanWithin(UpRay(from), own, opps);
    RayScanWithin(DownRayIntended(from), own, opps);
    RayScanStopsAtFirstPiece(LeftRay(from), own, opps);
    RayScanStopsAtFirstPiece(RightRay(from), own, opps);
    RayScanStopsAtFirstPiece(UpRay(from), own, opps);
    RayScanStopsAtFirstPiece(DownRayIntended(from), own, opps);
  }

  /** The corrected rook generator is complete: along each of its four
      rays (the row to the left and to the right, the file up and down,
      nearest first), every square up to the first piece is a target, the
      first piece too when it is an opponent's. */
  lemma RookIntendedComplete(from: int, own: set<int>, opps: set<int>)
    requires OnBoard(from)
    ensures forall k :: Reaches(LeftRay(from), k, own, opps) ==> LeftRay(from)[k] in RookTargetsIntended(from, own, opps)
    ensures forall k :: Reaches(RightRay(from), k, own, opps) ==> RightRay(from)[k] in RookTargetsIntended(from, own, opps)
    ensures forall k :: Reaches(UpRay(from), k, own, opps) ==> UpRay(from)[k] in RookTargetsIntended(from, own, opps)
    ensures forall k :: Reaches(DownRayIntended(from), k, own, opps) ==>
              DownRayIntended(from)[k] in RookTargetsIntended(from, own, opps)
  {
    ScanKeepsReached(LeftRay(from), own, opps);
    ScanKeepsReached(RightRay(from), own, opps);
    ScanKeepsReached(UpRay(from), own, opps);
    ScanKeepsReached(DownRayIntended(from), own, opps);
  }

  /** The downward ray (lines 89-91) walks the a-file whatever the origin's
      file: from b5 it visits a5, a4, ..., a1 instead of b4, ..., b1. */
  lemma RookDownRayOnAFile()
    ensures DownRay(33) == [32, 24, 16, 8, 0]
    ensures DownRayIntended(33) == [25, 17, 9, 1]
  {
    DownRayForm(33);
  }

  // ---------------------------------------------------------------- bishop

  /** The squares from `from` in the diagonal direction (`dr` rows, `df`
      files, each -1 or 1), nearest first, up to the edge of the board. */
  function DiagonalRay(from: int, dr: int, df: int): seq<int>
    requires OnBoard(from)
  {
    var rows := if dr > 0 then 7 - Row(from) else Row(from);
    var files := if df > 0 then 7 - File(from) else File(from);
    Arith(from + 8 * dr + df, 8 * dr + df, Min(rows, files))
  }

  /** A diagonal ray steps one row and one file at a time and runs up to the
      edge: one more step would leave the board. */
  lemma DiagonalRayGeometry(from: int, dr: int, df: int)
    requires OnBoard(from) && (dr == 1 || dr == -1) && (df == 1 || df == -1)
    ensures var r := DiagonalRay(from, dr, df);
      && (forall i :: 0 <= i < |r| ==>
            OnBoard(r[i]) && Row(r[i]) == Row(from) + dr * (i + 1) && File(r[i]) == File(from) + df * (i + 1))
      && !(0 <= Row(from) + dr * (|r| + 1) < 8 && 0 <= File(from) + df * (|r| + 1) < 8)
  {
    var r := DiagonalRay(from, dr, df);
    forall i | 0 <= i < |r|
      ensures OnBoard(r[i]) && Row(r[i]) == Row(from) + dr * (i + 1) && File(r[i]) == File(from) + df * (i + 1)
    {
      assert r[i] == 8 * (Row(from) + dr * (i + 1)) + (File(from) + df * (i + 1));
    }
  }

  /** possible_bishop_moves as evidently intended: the scans of the four
      diagonals in the source's order (north-west, south-west, north-east,
      south-east), with no underflow. */
  function BishopTargetsIntended(from: int, own: set<int>, opps: set<int>): seq<int>
    requires OnBoard(from)
  {
    RayScan(DiagonalRay(from, 1, -1), own, opps) + RayScan(DiagonalRay(from, -1, -1), own, opps)
      + RayScan(DiagonalRay(from, 1, 1), own, opps) + RayScan(DiagonalRay(from, -1, 1), own, opps)
  }

  /** Every corrected bishop target is another square on a diagonal through
      the origin, and is not own-occupied. */
  lemma BishopIntendedOnDiagonals(from: int, own: set<int>, opps: set<int>)
    requires OnBoard(from)
    ensures forall t :: t in BishopTargetsIntended(from, own, opps) ==>
              OnBoard(t) && t != from && t !in own && Abs(Row(t) - Row(from)) == Abs(File(t) - File(from))
  {
    forall dr, df | (dr == 1 || dr == -1) && (df == 1 || df == -1)
      ensures forall t :: t in RayScan(DiagonalRay(from, dr, df), own, opps) ==>
                OnBoard(t) && t != from && t !in own && Abs(Row(t) - Row(from)) == Abs(File(t) - File(from))
    {
      DiagonalScan(from, dr, df, own, opps);
    }
  }

  /** The corrected bishop generator is complete: along each of the four
      diagonals, every square up to the first piece is a target, the first
      piece too when it is an opponent's. */
  lemma BishopIntendedComplete(from: int, own: set<int>, opps: set<int>)
    requires OnBoard(from)
    ensures forall dr, df, k :: (dr == 1 || dr == -1) && (df == 1 || df == -1) && Reaches(DiagonalRay(from, dr, df), k, own, opps)
              ==> DiagonalRay(from, dr, df)[k] in BishopTargetsIntended(from, own, opps)
  {
    ScanKeepsReached(DiagonalRay(from, 1, -1), own, opps);
    ScanKeepsReached(DiagonalRay(from, -1, -1), own, opps);
    ScanKeepsReached(DiagonalRay(from, 1, 1), own, opps);
    ScanKeepsReached(DiagonalRay(from, -1, 1), own, opps);
  }

  lemma DiagonalScan(from: int, dr: int, df: int, own: set<int>, opps: set<int>)
    requires OnBoard(from) && (dr == 1 || dr == -1) && (df == 1 || df == -1)
    ensures forall t :: t in RayScan(DiagonalRay(from, dr, df), own, opps) ==>
              OnBoard(t) && t != from && t !in own && Abs(Row(t) - Row(from)) == Abs(File(t) - File(from))
  {
    var ray := DiagonalRay(from, dr, df);
    DiagonalRayGeometry(from, dr, df);
    RayScanStopsAtFirstPiece(ray, own, opps);
    var r := RayScan(ray, own, opps);
    forall t | t in r
      ensures OnBoard(t) && t != from && t !in own && Abs(Row(t) - Row(from)) == Abs(File(t) - File(from))
    {
      var i :| 0 <= i < |r| && r[i] == t;
      assert ray[i] == t;
    }
  }

  /** The bounds `from - rank * 9` and `from - inv_rank * 7` (lines 102 and
      106) underflow their u8 for the bishops of the initial position: on c1
      and on c5 the generator panics. */
  lemma BishopUnderflowsOnStart()
    ensures BishopBoundsUnderflow(2) && BishopBoundsUnderflow(34)
    ensures BishopTargetsIntended(2, {}, {}) == [9, 16, 11, 20, 29, 38, 47]
  {
    DiagonalsFromC1();
    ScanOfEmptyBoard(DiagonalRay(2, 1, -1));
    ScanOfEmptyBoard(DiagonalRay(2, -1, -1));
    ScanOfEmptyBoard(DiagonalRay(2, 1, 1));
    ScanOfEmptyBoard(DiagonalRay(2, -1, 1));
    assert BishopTargetsIntended(2, {}, {}) == [9, 16] + [] + [11, 20, 29, 38, 47] + [];
  }

  lemma DiagonalsFromC1()
    ensures DiagonalRay(2, 1, -1) == [9, 16] && DiagonalRay(2, -1, -1) == []
    ensures DiagonalRay(2, 1, 1) == [11, 20, 29, 38, 47] && DiagonalRay(2, -1, 1) == []
  {
    assert DiagonalRay(2, 1, -1) == Arith(9, 7, 2);
    assert DiagonalRay(2, 1, 1) == Arith(11, 9, 5);
  }

  /** The south-west and south-east ranges (lines 109 and 111) start at
      `from - 1`: from e8 they visit d8, c7, b6, a5 and d8, e7, f6 instead of
      the diagonals d7, c6, b5, a4 and f7, g6, h5. */
  lemma BishopSouthRaysStartBeside()
    ensures SwRay(60) == [59, 50, 41, 32] && DiagonalRay(60, -1, -1) == [51, 42, 33, 24]
    ensures SeRay(60) == [59, 52, 45] && DiagonalRay(60, -1, 1) == [53, 46, 39]
  {
    SouthWestFromE8();
    SouthEastFromE8();
  }

  lemma SouthWestFromE8()
    ensures SwRay(60) == [59, 50, 41, 32] && DiagonalRay(60, -1, -1) == [51, 42, 33, 24]
  {
    SwRayFromE8();
    SwDiagonalFromE8();
  }

  lemma SwRayFromE8()
    ensures SwRay(60) == [59, 50, 41, 32]
  {
    SwRayForm(60);
    assert Arith(59, -9, 4) == [59, 50, 41, 32];
  }

  lemma SwDiagonalFromE8()
    ensures DiagonalRay(60, -1, -1) == [51, 42, 33, 24]
  {
    assert DiagonalRay(60, -1, -1) == Arith(51, -9, 4);
  }

  lemma SouthEastFromE8()
    ensures SeRay(60) == [59, 52, 45] && DiagonalRay(60, -1, 1) == [53, 46, 39]
  {
    SeRayForm(60);
  }

  /** `min(56, ...)` caps the north-west ray (line 101) below b8: a bishop
      on c7 of an empty board is given no north-west square, although b8
      lies on that diagonal. The generator does not panic there; its other
      rays give b7, a6 (south-west), d8 (north-east) and b7, c6, d5, e4, f3
      (south-east). */
  lemma BishopNorthWestCap()
    ensures BishopOutcome(50, {}, {}) == Returned([49, 40, 59, 49, 42, 35, 28, 21])
    ensures 57 !in BishopOutcome(50, {}, {}).value
    ensures DiagonalRay(50, 1, -1) == [57]
  {
    RaysFromC7();
    ScanOfEmptyBoard(SwRay(50));
    ScanOfEmptyBoard(NeRay(50));
    ScanOfEmptyBoard(SeRay(50));
    var targets := BishopTargets(50, {}, {});
    assert targets == [] + [49, 40] + [59] + [49, 42, 35, 28, 21];
    assert targets == [49, 40, 59, 49, 42, 35, 28, 21];
    assert DiagonalRay(50, 1, -1) == Arith(57, 7, 1);
  }

  /** The four ranges of the bishop generator from c7, which passes both
      bound checks. */
  lemma RaysFromC7()
    ensures !BishopBoundsUnderflow(50)
    ensures NwRay(50) == [] && SwRay(50) == [49, 40] && NeRay(50) == [59]
    ensures SeRay(50) == [49, 42, 35, 28, 21]
  {
    assert NwRay(50) == [] by {
      NwRayForm(50);
    }
    assert SwRay(50) == [49, 40] by {
      SwRayForm(50);
      assert Arith(49, -9, 2) == [49, 40];
    }
    assert NeRay(50) == [59] by {
      NeRayForm(50);
    }
    assert SeRay(50) == [49, 42, 35, 28, 21] by {
      SeRayForm(50);
      assert Arith(49, -7, 5) == [49, 42, 35, 28, 21];
    }
  }

  /** With no piece on the board a ray is scanned to its end. */
  lemma {:induction false} ScanOfEmptyBoard(range: seq<int>)
    ensures RayScan(range, {}, {}) == range
    decreases |range|
  {
    if range != [] {
      ScanOfEmptyBoard(range[1..]);
    }
  }

  // ---------------------------------------------------------------- knight

  /** A knight jump: two rows and one file apart, or one row and two files. */
  predicate KnightJump(from: int, t: int) {
    var dr, df := Abs(Row(t) - Row(from)), Abs(File(t) - File(from));
    OnBoard(t) && ((dr == 1 && df == 2) || (dr == 2 && df == 1))
  }

  /** The offsets of possible_knight_moves with the second-row and
      second-file exclusions as evidently intended: near a second row only
      the two-row steps towards that edge go, near a second file only the
      two-file steps towards it. */
  function KnightOffsetsIntended(from: int): set<int> {
    var byRow := if from < 8 then AllKnightOffsets - South
                 else if from > 55 then AllKnightOffsets - North
                 else if from < 16 then AllKnightOffsets - {-15, -17}
                 else if from > 47 then AllKnightOffsets - {15, 17}
                 else AllKnightOffsets;
    if File(from) == 0 then byRow - West
    else if File(from) == 7 then byRow - East
    else if File(from) == 1 then byRow - {6, -10}
    else if File(from) == 6 then byRow - {-6, 10}
    else byRow
  }

  /** The offset `8 * rows + files` lands a knight jump away exactly when
      both the row and the file it reaches exist. */
  lemma KnightOffsetJump(from: int, rows: int, files: int)
    requires OnBoard(from)
    requires (Abs(rows) == 1 && Abs(files) == 2) || (Abs(rows) == 2 && Abs(files) == 1)
    ensures KnightJump(from, from + 8 * rows + files) <==>
              0 <= Row(from) + rows < 8 && 0 <= File(from) + files < 8
  {
    var t := from + 8 * rows + files;
    if 0 <= File(from) + files < 8 {
      FileStep(t, from, rows, files);
    } else if File(from) + files < 0 {
      assert t == 8 * (Row(from) + rows - 1) + (File(from) + files + 8);
    } else {
      assert t == 8 * (Row(from) + rows + 1) + (File(from) + files - 8);
    }
  }

  /** Every knight jump is one of the eight offsets away. */
  lemma KnightJumpOffset(from: int, t: int)
    requires OnBoard(from) && KnightJump(from, t)
    ensures t - from in AllKnightOffsets
  {
    assert from == 8 * Row(from) + File(from) && t == 8 * Row(t) + File(t);
  }

  /** The corrected offsets are exactly those that make a knight jump. */
  lemma KnightOffsetsIntendedExact(from: int)
    requires OnBoard(from)
    ensures forall d :: d in KnightOffsetsIntended(from) <==> d in AllKnightOffsets && KnightJump(from, from + d)
  {
    KnightOffsetJump(from, 2, 1);
    KnightOffsetJump(from, 2, -1);
    KnightOffsetJump(from, 1, 2);
    KnightOffsetJump(from, 1, -2);
    KnightOffsetJump(from, -2, 1);
    KnightOffsetJump(from, -2, -1);
    KnightOffsetJump(from, -1, 2);
    KnightOffsetJump(from, -1, -2);
  }

  function KnightTargetsIntended(from: int, own: set<int>): set<int> {
    set t | 0 <= t < 64 && t - from in KnightOffsetsIntended(from) && t !in own
  }

  /** The corrected knight generator gives exactly the knight jumps onto
      squares without an own piece. */
  lemma KnightIntendedTargets(from: int, own: set<int>)
    requires OnBoard(from)
    ensures forall t :: t in KnightTargetsIntended(from, own) <==> KnightJump(from, t) && t !in own
  {
    KnightOffsetsIntendedExact(from);
    forall t | KnightJump(from, t) ensures t - from in AllKnightOffsets {
      KnightJumpOffset(from, t);
    }
  }

  /** The second-file exclusion (lines 177-181) removes nothing, so a knight
      on g1 is given a3, six files away. */
  lemma KnightWrapsFromG1()
    ensures 16 in KnightTargets(6, {})
    ensures !KnightJump(6, 16)
    ensures 16 !in KnightTargetsIntended(6, {})
  {
    assert KnightOffsets(6) == North;
    assert 16 - 6 in North;
    assert KnightOffsetsIntended(6) == (AllKnightOffsets - South) - {-6, 10};
    assert Row(16) == 2 && File(16) == 0 && Row(6) == 0 && File(6) == 6;
  }
}
