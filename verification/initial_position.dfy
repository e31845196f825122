/** The generators of MoveGeneration, as written, on the standard initial
    position: White on squares 0..15 and Black on 48..63. These are the
    positions the in-file tests of engine/src/move_generation.rs use; where
    the code as written gives something else than those tests expect, the
    lemma states what it gives. */
module InitialPosition {
  import opened Board
  import opened MoveGeneration

  const Initial: Bitboards := Bitboards(
    set sq | 48 <= sq < 56, {56, 63}, {58, 61}, {60}, {59}, {57, 62},
    set sq | 8 <= sq < 16, {0, 7}, {2, 5}, {4}, {3}, {1, 6})

  const WhiteSquares: set<int> := set sq | 0 <= sq < 16
  const BlackSquares: set<int> := set sq | 48 <= sq < 64

  /** White holds the first two rows and Black the last two. */
  lemma InitialSides()
    ensures Side(Initial, true) == WhiteSquares && Side(Initial, false) == BlackSquares
  {}

  /** Pawn pushes fire only onto occupied squares, so the pawns of the
      opening position have no move, and an empty square in front of a pawn
      gives none either; a pawn facing the black pawns pushes into one and
      captures the two beside it. The tests expect [25], [17, 25], [41, 33]
      and [49, 51]. */
  lemma InitialPawnMoves()
    ensures PawnOutcome(17, true, BlackSquares, WhiteSquares + BlackSquares) == Returned([])
    ensures PawnOutcome(9, true, BlackSquares, WhiteSquares + BlackSquares) == Returned([])
    ensures PawnOutcome(49, false, WhiteSquares, WhiteSquares + BlackSquares) == Returned([])
    ensures PawnOutcome(42, true, BlackSquares, WhiteSquares + BlackSquares) == Returned([50, 49, 51])
  {
    var taken := WhiteSquares + BlackSquares;
    assert PawnPushes(42, true, BlackSquares, taken) == [50, 49, 51];
    assert KeepOnBoard([50, 49, 51]) == [50] + KeepOnBoard([49, 51]);
    assert KeepOnBoard([49, 51]) == [49] + KeepOnBoard([51]);
    assert KeepOnBoard([51]) == [51] + KeepOnBoard([]);
    assert KeepOnBoard(PawnPushes(42, true, BlackSquares, taken)) == [50, 49, 51];
    assert PawnOutcome(42, true, BlackSquares, taken) == Returned(KeepOnBoard(PawnPushes(42, true, BlackSquares, taken)));
  }

  /** A pawn whose forward square is off the board panics (the tests expect
      []); the white pawn on b1 pushes into its own pawn on b2, and captures
      a black pawn put on a2 as well (the tests expect [] and [8]). */
  lemma InitialPawnEdges()
    ensures PawnOutcome(57, true, BlackSquares, WhiteSquares + BlackSquares) == Panicked
    ensures PawnOutcome(1, false, WhiteSquares, WhiteSquares + BlackSquares) == Panicked
    ensures PawnOutcome(1, true, BlackSquares, WhiteSquares + BlackSquares) == Returned([9])
    ensures PawnOutcome(1, true, BlackSquares + {8}, WhiteSquares + BlackSquares) == Returned([9, 8])
  {
    var taken := WhiteSquares + BlackSquares;
    assert PawnPushes(1, true, BlackSquares, taken) == [9];
    assert KeepOnBoard([9]) == [9] + KeepOnBoard([]);
    assert KeepOnBoard(PawnPushes(1, true, BlackSquares, taken)) == [9];
    assert PawnOutcome(1, true, BlackSquares, taken) == Returned(KeepOnBoard(PawnPushes(1, true, BlackSquares, taken)));
    assert PawnPushes(1, true, BlackSquares + {8}, taken) == [9, 8];
    assert KeepOnBoard([9, 8]) == [9] + KeepOnBoard([8]);
    assert KeepOnBoard([8]) == [8] + KeepOnBoard([]);
    assert KeepOnBoard(PawnPushes(1, true, BlackSquares + {8}, taken)) == [9, 8];
    assert PawnOutcome(1, true, BlackSquares + {8}, taken)
        == Returned(KeepOnBoard(PawnPushes(1, true, BlackSquares + {8}, taken)));
  }

  /** The rook on a1 is blocked. A white rook on b5 goes left, right, up to
      the black pawn on b7 and then down the a-file to its own pawn, so a5
      appears twice (the test expects b4 and b3 instead of a4 and a3). */
  lemma InitialRookMoves()
    ensures RookTargets(0, WhiteSquares, BlackSquares) == []
    ensures RookTargets(33, WhiteSquares, BlackSquares) == [32, 34, 35, 36, 37, 38, 39, 41, 49, 32, 24, 16]
  {
    RookOnA1();
    RookOnB5();
  }

  lemma RookOnA1()
    ensures RookTargets(0, WhiteSquares, BlackSquares) == []
  {
    RookRayForms(0);
    assert LeftRay(0) == [] && DownRay(0) == [];
    assert RightRay(0) == [1, 2, 3, 4, 5, 6, 7];
    assert UpRay(0) == [8, 16, 24, 32, 40, 48, 56];
  }

  lemma RookOnB5()
    ensures RookTargets(33, WhiteSquares, BlackSquares) == [32, 34, 35, 36, 37, 38, 39, 41, 49, 32, 24, 16]
  {
    RookRayForms(33);
    assert LeftRay(33) == [32];
    assert RightRay(33) == [34, 35, 36, 37, 38, 39];
    assert UpRay(33) == [41, 49, 57];
    assert DownRay(33) == [32, 24, 16, 8, 0];
    assert RayScan([32], WhiteSquares, BlackSquares) == [32] + RayScan([], WhiteSquares, BlackSquares);
    RightScan();
    UpScan();
    DownScan();
  }

  lemma UpScan()
    ensures RayScan([41, 49, 57], WhiteSquares, BlackSquares) == [41, 49]
  {
    assert RayScan([49, 57], WhiteSquares, BlackSquares) == [49];
    assert RayScan([41, 49, 57], WhiteSquares, BlackSquares) == [41] + RayScan([49, 57], WhiteSquares, BlackSquares);
  }

  lemma DownScan()
    ensures RayScan([32, 24, 16, 8, 0], WhiteSquares, BlackSquares) == [32, 24, 16]
  {
    assert RayScan([16, 8, 0], WhiteSquares, BlackSquares) == [16] + RayScan([8, 0], WhiteSquares, BlackSquares);
    assert RayScan([24, 16, 8, 0], WhiteSquares, BlackSquares) == [24] + RayScan([16, 8, 0], WhiteSquares, BlackSquares);
    assert RayScan([32, 24, 16, 8, 0], WhiteSquares, BlackSquares) == [32] + RayScan([24, 16, 8, 0], WhiteSquares, BlackSquares);
  }

  lemma RightScan()
    ensures RayScan([34, 35, 36, 37, 38, 39], WhiteSquares, BlackSquares) == [34, 35, 36, 37, 38, 39]
  {
    assert RayScan([39], WhiteSquares, BlackSquares) == [39] + RayScan([], WhiteSquares, BlackSquares);
    assert RayScan([38, 39], WhiteSquares, BlackSquares) == [38] + RayScan([39], WhiteSquares, BlackSquares);
    assert RayScan([37, 38, 39], WhiteSquares, BlackSquares) == [37] + RayScan([38, 39], WhiteSquares, BlackSquares);
    assert RayScan([36, 37, 38, 39], WhiteSquares, BlackSquares) == [36] + RayScan([37, 38, 39], WhiteSquares, BlackSquares);
    assert RayScan([35, 36, 37, 38, 39], WhiteSquares, BlackSquares) == [35] + RayScan([36, 37, 38, 39], WhiteSquares, BlackSquares);
  }

  /** Both bishop squares the tests use make a bound underflow: the
      generator panics (the tests expect [] and a list of eight squares). */
  lemma InitialBishopMoves()
    ensures BishopOutcome(2, WhiteSquares, BlackSquares) == Panicked
    ensures BishopOutcome(34, WhiteSquares, BlackSquares) == Panicked
  {}

  /** The white king on e1 is blocked; the king on e1 taken as Black steps
      onto the white squares around it; a white king on c5 has all eight
      neighbours, in the order of the offsets. */
  lemma InitialKingMoves()
    ensures OffsetTargets(4, KingOffsets, WhiteSquares) == []
    ensures OffsetTargets(4, KingOffsets, BlackSquares) == [3, 5, 11, 12, 13]
    ensures OffsetTargets(34, KingOffsets, WhiteSquares) == [33, 35, 27, 41, 26, 42, 25, 43]
  {
    KingTargetsInOrder(4, WhiteSquares);
    KingTargetsInOrder(4, BlackSquares);
    KingTargetsInOrder(34, WhiteSquares);
  }

  function Kept(t: int, own: set<int>): seq<int> {
    if OnBoard(t) && t !in own then [t] else []
  }

  lemma OffsetStep(from: int, offsets: seq<int>, d: int, own: set<int>)
    ensures OffsetTargets(from, offsets + [d], own) == OffsetTargets(from, offsets, own) + Kept(from + d, own)
  {
    assert (offsets + [d])[..|offsets|] == offsets;
  }

  /** The king's targets, offset by offset. */
  lemma KingTargetsInOrder(from: int, own: set<int>)
    ensures OffsetTargets(from, KingOffsets, own)
         == Kept(from - 1, own) + Kept(from + 1, own) + Kept(from - 7, own) + Kept(from + 7, own)
          + Kept(from - 8, own) + Kept(from + 8, own) + Kept(from - 9, own) + Kept(from + 9, own)
  {
    var p0: seq<int> := [];
    var p1 := p0 + [-1];
    OffsetStep(from, p0, -1, own);
    var p2 := p1 + [1];
    OffsetStep(from, p1, 1, own);
    var p3 := p2 + [-7];
    OffsetStep(from, p2, -7, own);
    var p4 := p3 + [7];
    OffsetStep(from, p3, 7, own);
    var p5 := p4 + [-8];
    OffsetStep(from, p4, -8, own);
    var p6 := p5 + [8];
    OffsetStep(from, p5, 8, own);
    var p7 := p6 + [-9];
    OffsetStep(from, p6, -9, own);
    var p8 := p7 + [9];
    OffsetStep(from, p7, 9, own);
    assert p8 == KingOffsets;
  }

  /** The knights of the opening position: b1 reaches a3 and c3 (as the
      test expects), g1 reaches a3 across the board besides f3 and h3, a
      knight on c5 reaches all eight squares and the black knight on g8
      reaches f6 and h6. */
  lemma InitialKnightMoves()
    ensures KnightTargets(1, WhiteSquares) == {16, 18}
    ensures KnightTargets(6, WhiteSquares) == {16, 21, 23}
    ensures KnightTargets(34, WhiteSquares) == {17, 19, 24, 28, 40, 44, 49, 51}
    ensures KnightTargets(62, BlackSquares) == {45, 47}
  {
    assert KnightOffsets(1) == North && KnightOffsets(6) == North;
    assert KnightOffsets(34) == AllKnightOffsets && KnightOffsets(62) == South;
  }
}
