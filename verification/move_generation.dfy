/** Pseudo-legal move generation of the engine (engine/src/move_generation.rs),
    modelled as written. The generators read the chessboard and change nothing.
    `own` and `opps` are the squares of the mover's side and of the other side,
    `taken` the squares of both. */
module MoveGeneration {
  import opened Board
  import opened Ranges

  function Min(a: int, b: int): int { if a <= b then a else b }
  function Max(a: int, b: int): int { if a >= b then a else b }

  predicate Distinct(s: seq<int>) {
    forall i, j :: 0 <= i < j < |s| ==> s[i] != s[j]
  }

  // ---------------------------------------------------------------- ray scan

  /** The squares `move_until_piece` keeps from `range`. */
  function RayScan(range: seq<int>, own: set<int>, opps: set<int>): seq<int> {
    if range == [] then []
    else if range[0] in own then []
    else if range[0] in opps then [range[0]]
    else [range[0]] + RayScan(range[1..], own, opps)
  }

  /** The scan keeps a prefix of the range, in order, that holds no own piece
      and no opponent piece except possibly as its last square; it stops early
      only before an own piece or right after an opponent piece. */
  lemma {:induction false} RayScanStopsAtFirstPiece(range: seq<int>, own: set<int>, opps: set<int>)
    ensures var r := RayScan(range, own, opps);
      && |r| <= |range| && r == range[..|r|]
      && (forall i :: 0 <= i < |r| ==> r[i] !in own)
      && (forall i :: 0 <= i < |r| - 1 ==> r[i] !in opps)
      && (|r| < |range| ==> range[|r|] in own || (|r| > 0 && r[|r| - 1] in opps))
    decreases |range|
  {
    if range != [] && range[0] !in own && range[0] !in opps {
      RayScanStopsAtFirstPiece(range[1..], own, opps);
    }
  }

  /** Square k of the range can be reached: it holds no own piece, and no
      square before it holds a piece. */
  ghost predicate Reaches(range: seq<int>, k: int, own: set<int>, opps: set<int>) {
    && 0 <= k < |range| && range[k] !in own
    && forall j :: 0 <= j < k ==> range[j] !in own && range[j] !in opps
  }

  /** The scan keeps exactly the squares of the range that can be reached. */
  lemma {:induction false} RayScanReach(range: seq<int>, own: set<int>, opps: set<int>)
    ensures forall k :: 0 <= k < |range| ==> (k < |RayScan(range, own, opps)| <==> Reaches(range, k, own, opps))
    decreases |range|
  {
    if range != [] && range[0] !in own && range[0] !in opps {
      var tail := range[1..];
      RayScanReach(tail, own, opps);
      forall k | 1 <= k < |range|
        ensures Reaches(range, k, own, opps) <==> Reaches(tail, k - 1, own, opps)
      {
        assert forall j :: 0 <= j < k - 1 ==> tail[j] == range[j + 1];
        if Reaches(tail, k - 1, own, opps) {
          forall j | 0 <= j < k ensures range[j] !in own && range[j] !in opps {
            if j > 0 {
              assert range[j] == tail[j - 1];
            }
          }
        }
      }
    }
  }

  /** move_until_piece: walk `range` until a piece is hit. `1 << square` on a
      u64 needs every square of the range to be on the board. */
  method MoveUntilPiece(board: Chessboard, range: seq<int>, white: bool) returns (result: seq<int>)
    requires forall i :: 0 <= i < |range| ==> OnBoard(range[i])
    ensures result == RayScan(range, board.OneSidePieces(white), board.OneSidePieces(!white))
  {
    var own := board.OneSidePieces(white);
    var opps := board.OneSidePieces(!white);
    result := [];
    var i := 0;
    while i < |range|
      invariant 0 <= i <= |range|
      invariant RayScan(range, own, opps) == result + RayScan(range[i..], own, opps)
    {
      var square := range[i];
      assert range[i..] == [square] + range[i + 1..];
      if square in own {
        break;
      }
      result := result + [square];
      if square in opps {
        break;
      }
      i := i + 1;
    }
  }

  // ---------------------------------------------------------------- rook

  /** `(left_bound..from).rev()` */
  function LeftRay(from: int): seq<int> { Rev(Range(from - from % 8, from)) }
  /** `from+1..=right_bound` */
  function RightRay(from: int): seq<int> { Range(from + 1, from - from % 8 + 7 + 1) }
  /** `(from + 8..=63).step_by(8)` */
  function UpRay(from: int): seq<int> { StepBy(Range(from + 8, 63 + 1), 8) }
  /** `(0..from).step_by(8).rev()` */
  function DownRay(from: int): seq<int> { Rev(StepBy(Range(0, from), 8)) }

  /** The four rook rays in closed form: left and right walk the origin's rank
      outwards, up walks the origin's file, and down walks the multiples of 8
      below the origin (the a-file), nearest first. */
  lemma RookRayForms(from: int)
    requires OnBoard(from)
    ensures LeftRay(from) == Arith(from - 1, -1, from % 8)
    ensures RightRay(from) == Arith(from + 1, 1, 7 - from % 8)
    ensures UpRay(from) == Arith(from + 8, 8, (63 - from) / 8)
    ensures DownRay(from) == Arith(8 * ((from + 7) / 8 - 1), -8, (from + 7) / 8)
  {
    RevArith(from - from % 8, 1, from % 8);
    StepByArith(from + 8, 1, if from + 8 < 64 then 64 - (from + 8) else 0, 8, 8, (63 - from) / 8);
    DownRayForm(from);
  }

  lemma DownRayForm(from: int)
    requires OnBoard(from)
    ensures DownRay(from) == Arith(8 * ((from + 7) / 8 - 1), -8, (from + 7) / 8)
  {
    StepByArith(0, 1, from, 8, 8, (from + 7) / 8);
    RevArith(0, 8, (from + 7) / 8);
  }

  /** Every rook ray stays on the board and never revisits the origin; the
      left and right rays stay on the origin's rank, the up ray on its file,
      while the down ray lies on the a-file whatever the origin's file. */
  lemma RookRayGeometry(from: int)
    requires OnBoard(from)
    ensures forall i :: 0 <= i < |LeftRay(from)| ==>
              OnBoard(LeftRay(from)[i]) && LeftRay(from)[i] / 8 == from / 8 && LeftRay(from)[i] < from
    ensures forall i :: 0 <= i < |RightRay(from)| ==>
              OnBoard(RightRay(from)[i]) && RightRay(from)[i] / 8 == from / 8 && RightRay(from)[i] > from
    ensures forall i :: 0 <= i < |UpRay(from)| ==>
              OnBoard(UpRay(from)[i]) && UpRay(from)[i] % 8 == from % 8 && UpRay(from)[i] > from
    ensures forall i :: 0 <= i < |DownRay(from)| ==>
              OnBoard(DownRay(from)[i]) && DownRay(from)[i] % 8 == 0 && DownRay(from)[i] < from
  {
    SideRaysGeometry(from);
    UpRayGeometry(from);
    DownRayGeometry(from);
  }

  lemma SideRaysGeometry(from: int)
    requires OnBoard(from)
    ensures forall i :: 0 <= i < |LeftRay(from)| ==>
              OnBoard(LeftRay(from)[i]) && LeftRay(from)[i] / 8 == from / 8 && LeftRay(from)[i] < from
    ensures forall i :: 0 <= i < |RightRay(from)| ==>
              OnBoard(RightRay(from)[i]) && RightRay(from)[i] / 8 == from / 8 && RightRay(from)[i] > from
  {
    RevArith(from - from % 8, 1, from % 8);
    forall i | 0 <= i < |LeftRay(from)| ensures LeftRay(from)[i] / 8 == from / 8 {
      assert LeftRay(from)[i] == 8 * (from / 8) + (from % 8 - 1 - i);
    }
    forall i | 0 <= i < |RightRay(from)| ensures RightRay(from)[i] / 8 == from / 8 {
      assert RightRay(from)[i] == 8 * (from / 8) + (from % 8 + 1 + i);
    }
  }

  lemma UpRayGeometry(from: int)
    requires OnBoard(from)
    ensures forall i :: 0 <= i < |UpRay(from)| ==>
              OnBoard(UpRay(from)[i]) && UpRay(from)[i] % 8 == from % 8 && UpRay(from)[i] > from
  {
    StepByArith(from + 8, 1, if from + 8 < 64 then 64 - (from + 8) else 0, 8, 8, (63 - from) / 8);
    forall i | 0 <= i < |UpRay(from)| ensures UpRay(from)[i] % 8 == from % 8 && UpRay(from)[i] < 64 {
      assert UpRay(from)[i] == from + 8 * (i + 1);
    }
  }

  lemma DownRayGeometry(from: int)
    requires OnBoard(from)
    ensures forall i :: 0 <= i < |DownRay(from)| ==>
              OnBoard(DownRay(from)[i]) && DownRay(from)[i] % 8 == 0 && DownRay(from)[i] < from
  {
    DownRayForm(from);
    forall i | 0 <= i < |DownRay(from)| ensures DownRay(from)[i] % 8 == 0 && 0 <= DownRay(from)[i] < from {
      assert DownRay(from)[i] == 8 * ((from + 7) / 8 - 1 - i);
    }
  }

  /** What possible_rook_moves returns: the scans of the left, right, up and
      down rays, concatenated in that order. */
  function RookTargets(from: int, own: set<int>, opps: set<int>): seq<int> {
    RayScan(LeftRay(from), own, opps) + RayScan(RightRay(from), own, opps)
      + RayScan(UpRay(from), own, opps) + RayScan(DownRay(from), own, opps)
  }

  method RookMoves(board: Chessboard, from: int, white: bool) returns (result: seq<int>)
    requires OnBoard(from)
    ensures result == RookTargets(from, board.OneSidePieces(white), board.OneSidePieces(!white))
  {
    RookRayGeometry(from);
    result := [];
    var left := MoveUntilPiece(board, LeftRay(from), white);
    result := result + left;
    var right := MoveUntilPiece(board, RightRay(from), white);
    result := result + right;
    var up := MoveUntilPiece(board, UpRay(from), white);
    result := result + up;
    var down := MoveUntilPiece(board, DownRay(from), white);
    result := result + down;
  }

  // ---------------------------------------------------------------- bishop

  /** The u8 subtractions `from - rank * 9` and `from - inv_rank * 7` that
      bound the south-west and south-east rays underflow (a panic). */
  predicate BishopBoundsUnderflow(from: int) {
    from - (from % 8) * 9 < 0 || from - (7 - from % 8) * 7 < 0
  }

  /** `(from + 7..=nw_bound).step_by(7)` with nw_bound = min(56, from + rank * 7) */
  function NwRay(from: int): seq<int> {
    StepBy(Range(from + 7, Min(56, from + (from % 8) * 7) + 1), 7)
  }
  /** `(sw_bound..from).rev().step_by(9)` with sw_bound = max(0, from - rank * 9) */
  function SwRay(from: int): seq<int> {
    StepBy(Rev(Range(Max(0, from - (from % 8) * 9), from)), 9)
  }
  /** `(from + 9..=ne_bound).step_by(9)` with ne_bound = min(63, from + inv_rank * 9) */
  function NeRay(from: int): seq<int> {
    StepBy(Range(from + 9, Min(63, from + (7 - from % 8) * 9) + 1), 9)
  }
  /** `(se_bound..from).rev().step_by(7)` with se_bound = max(7, from - inv_rank * 7) */
  function SeRay(from: int): seq<int> {
    StepBy(Rev(Range(Max(7, from - (7 - from % 8) * 7), from)), 7)
  }

  /** The north-west ray in closed form: from + 7, from + 14, ... */
  lemma NwRayForm(from: int)
    requires OnBoard(from)
    ensures NwRay(from) == Arith(from + 7, 7, Max(0, Min(56, from + (from % 8) * 7) - from) / 7)
  {
    var bound := Min(56, from + (from % 8) * 7);
    var count := if from + 7 < bound + 1 then bound + 1 - (from + 7) else 0;
    StepByArith(from + 7, 1, count, 7, 7, Max(0, bound - from) / 7);
  }

  /** The north-east ray in closed form: from + 9, from + 18, ... */
  lemma NeRayForm(from: int)
    requires OnBoard(from)
    ensures NeRay(from) == Arith(from + 9, 9, Max(0, Min(63, from + (7 - from % 8) * 9) - from) / 9)
  {
    var bound := Min(63, from + (7 - from % 8) * 9);
    var count := if from + 9 < bound + 1 then bound + 1 - (from + 9) else 0;
    StepByArith(from + 9, 1, count, 9, 9, Max(0, bound - from) / 9);
  }

  /** The south-west ray in closed form: from - 1, from - 10, ... */
  lemma SwRayForm(from: int)
    requires OnBoard(from) && !BishopBoundsUnderflow(from)
    ensures SwRay(from) == Arith(from - 1, -9, from % 8)
  {
    var bound := from - (from % 8) * 9;
    RevArith(bound, 1, from - bound);
    StepByArith(from - 1, -1, from - bound, 9, -9, from % 8);
  }

  /** The south-east ray in closed form: from - 1, from - 8, ... */
  lemma SeRayForm(from: int)
    requires OnBoard(from) && !BishopBoundsUnderflow(from)
    ensures SeRay(from) == Arith(from - 1, -7, (from - Max(7, from - (7 - from % 8) * 7) + 6) / 7)
  {
    var bound := Max(7, from - (7 - from % 8) * 7);
    var count := if bound < from then from - bound else 0;
    RevArith(bound, 1, count);
    StepByArith(bound + count - 1, -1, count, 7, -7, (from - bound + 6) / 7);
  }

  lemma BelowQuotient(i: int, c: int, d: int)
    requires d > 0 && 0 <= i < c / d
    ensures d * (i + 1) <= c
  {
    assert d * (c / d) + c % d == c;
    assert d * (i + 1) <= d * (c / d);
  }

  /** 8 * row + file splits back into its row and file. */
  lemma RowFile(row: int, file: int)
    requires 0 <= file < 8
    ensures (8 * row + file) / 8 == row && (8 * row + file) % 8 == file
  {}

  /** The i-th square of the north-west ray is i + 1 rows up and i + 1 files
      left of the origin. */
  lemma NwStep(from: int, i: int)
    requires OnBoard(from) && 0 <= i < |NwRay(from)|
    ensures OnBoard(NwRay(from)[i])
    ensures NwRay(from)[i] / 8 == from / 8 + (i + 1) && NwRay(from)[i] % 8 == from % 8 - (i + 1)
  {
    NwRayForm(from);
    var c := Max(0, Min(56, from + (from % 8) * 7) - from);
    BelowQuotient(i, c, 7);
    assert NwRay(from)[i] == 8 * (from / 8 + i + 1) + (from % 8 - (i + 1));
    RowFile(from / 8 + i + 1, from % 8 - (i + 1));
  }

  /** The i-th square of the north-east ray is i + 1 rows up and i + 1 files
      right of the origin. */
  lemma NeStep(from: int, i: int)
    requires OnBoard(from) && 0 <= i < |NeRay(from)|
    ensures OnBoard(NeRay(from)[i])
    ensures NeRay(from)[i] / 8 == from / 8 + (i + 1) && NeRay(from)[i] % 8 == from % 8 + (i + 1)
  {
    NeRayForm(from);
    var c := Max(0, Min(63, from + (7 - from % 8) * 9) - from);
    BelowQuotient(i, c, 9);
    assert NeRay(from)[i] == 8 * (from / 8 + i + 1) + (from % 8 + (i + 1));
    RowFile(from / 8 + i + 1, from % 8 + (i + 1));
  }

  /** Every bishop ray stays on the board. The north-west and north-east rays
      are true diagonals (each step one row up and one file over, without
      wrapping); the south-west and south-east rays start at the west
      neighbour `from - 1` instead of a diagonal neighbour. */
  lemma BishopRayGeometry(from: int)
    requires OnBoard(from) && !BishopBoundsUnderflow(from)
    ensures forall i :: 0 <= i < |NwRay(from)| ==>
              (OnBoard(NwRay(from)[i]) && NwRay(from)[i] / 8 == from / 8 + (i + 1)
               && NwRay(from)[i] % 8 == from % 8 - (i + 1))
    ensures forall i :: 0 <= i < |NeRay(from)| ==>
              (OnBoard(NeRay(from)[i]) && NeRay(from)[i] / 8 == from / 8 + (i + 1)
               && NeRay(from)[i] % 8 == from % 8 + (i + 1))
    ensures forall i :: 0 <= i < |SwRay(from)| ==> OnBoard(SwRay(from)[i]) && SwRay(from)[i] == from - 1 - 9 * i
    ensures forall i :: 0 <= i < |SeRay(from)| ==> OnBoard(SeRay(from)[i]) && SeRay(from)[i] == from - 1 - 7 * i
  {
    forall i | 0 <= i < |NwRay(from)|
      ensures OnBoard(NwRay(from)[i]) && NwRay(from)[i] / 8 == from / 8 + (i + 1)
              && NwRay(from)[i] % 8 == from % 8 - (i + 1)
    {
      NwStep(from, i);
    }
    forall i | 0 <= i < |NeRay(from)|
      ensures OnBoard(NeRay(from)[i]) && NeRay(from)[i] / 8 == from / 8 + (i + 1)
              && NeRay(from)[i] % 8 == from % 8 + (i + 1)
    {
      NeStep(from, i);
    }
    SwRayForm(from);
    SeRayForm(from);
    var seBound := Max(7, from - (7 - from % 8) * 7);
    forall i | 0 <= i < |SeRay(from)| ensures OnBoard(SeRay(from)[i]) {
      BelowQuotient(i, from - seBound + 6, 7);
    }
  }

  /** What possible_bishop_moves returns when its bounds do not underflow:
      the scans of the NW, SW, NE and SE rays, concatenated in that order. */
  function BishopTargets(from: int, own: set<int>, opps: set<int>): seq<int>
    requires OnBoard(from) && !BishopBoundsUnderflow(from)
  {
    RayScan(NwRay(from), own, opps) + RayScan(SwRay(from), own, opps)
      + RayScan(NeRay(from), own, opps) + RayScan(SeRay(from), own, opps)
  }

  function BishopOutcome(from: int, own: set<int>, opps: set<int>): Outcome<seq<int>>
    requires OnBoard(from)
  {
    if BishopBoundsUnderflow(from) then Panicked else Returned(BishopTargets(from, own, opps))
  }

  method BishopMoves(board: Chessboard, from: int, white: bool) returns (r: Outcome<seq<int>>)
    requires OnBoard(from)
    ensures BishopBoundsUnderflow(from) <==> r.Panicked?
    ensures r == BishopOutcome(from, board.OneSidePieces(white), board.OneSidePieces(!white))
  {
    var rank := from % 8;
    if from - rank * 9 < 0 {
      return Panicked;   // `from - rank * 9` underflows its u8
    }
    var invRank := 7 - rank;
    if from - invRank * 7 < 0 {
      return Panicked;   // `from - inv_rank * 7` underflows its u8
    }
    assert !BishopBoundsUnderflow(from);
    BishopRayGeometry(from);
    ghost var own, opps := board.OneSidePieces(white), board.OneSidePieces(!white);
    var result := [];
    var nw := MoveUntilPiece(board, NwRay(from), white);
    result := result + nw;
    var sw := MoveUntilPiece(board, SwRay(from), white);
    result := result + sw;
    var ne := MoveUntilPiece(board, NeRay(from), white);
    result := result + ne;
    var se := MoveUntilPiece(board, SeRay(from), white);
    result := result + se;
    assert result == BishopTargets(from, own, opps);
    r := Returned(result);
  }

  // ---------------------------------------------------------------- queen

  function QueenOutcome(from: int, own: set<int>, opps: set<int>): Outcome<seq<int>>
    requires OnBoard(from)
  {
    if BishopBoundsUnderflow(from) then Panicked
    else Returned(RookTargets(from, own, opps) + BishopTargets(from, own, opps))
  }

  /** possible_queen_moves: the rook moves followed by the bishop moves from
      the same origin (so it panics exactly where the bishop does). */
  method QueenMoves(board: Chessboard, from: int, white: bool) returns (r: Outcome<seq<int>>)
    requires OnBoard(from)
    ensures r.Panicked? <==> BishopBoundsUnderflow(from)
    ensures r.Returned? ==> r.value == RookTargets(from, board.OneSidePieces(white), board.OneSidePieces(!white))
                                       + BishopTargets(from, board.OneSidePieces(white), board.OneSidePieces(!white))
  {
    var result := RookMoves(board, from, white);
    var bishop := BishopMoves(board, from, white);
    if bishop.Panicked? {
      return Panicked;
    }
    result := result + bishop.value;
    r := Returned(result);
  }

  // ---------------------------------------------------------------- king

  const KingOffsets: seq<int> := [-1, 1, -7, 7, -8, 8, -9, 9]

  /** `from + d` for each offset d in order, kept when on the board and not
      own-occupied. */
  function OffsetTargets(from: int, offsets: seq<int>, own: set<int>): seq<int> {
    if offsets == [] then []
    else
      var target := from + offsets[|offsets| - 1];
      OffsetTargets(from, offsets[..|offsets| - 1], own)
        + (if OnBoard(target) && target !in own then [target] else [])
  }

  /** The kept targets are on the board, not own-occupied and an offset away
      from the origin, at most one per offset; and every such target is kept. */
  lemma {:induction false} OffsetTargetsExact(from: int, offsets: seq<int>, own: set<int>)
    ensures var r := OffsetTargets(from, offsets, own);
      && |r| <= |offsets|
      && (forall k :: 0 <= k < |r| ==> OnBoard(r[k]) && r[k] !in own && r[k] - from in offsets)
      && (forall i :: 0 <= i < |offsets| && OnBoard(from + offsets[i]) && from + offsets[i] !in own
            ==> from + offsets[i] in r)
    decreases |offsets|
  {
    if offsets != [] {
      var init := offsets[..|offsets| - 1];
      OffsetTargetsExact(from, init, own);
      assert forall i :: 0 <= i < |init| ==> init[i] == offsets[i];
    }
  }

  /** possible_king_moves: the eight neighbours in the order
      -1, 1, -7, 7, -8, 8, -9, 9, kept when on the board and not own-occupied. */
  method KingMoves(board: Chessboard, from: int, white: bool) returns (result: seq<int>)
    requires OnBoard(from)
    ensures result == OffsetTargets(from, KingOffsets, board.OneSidePieces(white))
    ensures |result| <= 8
  {
    result := [];
    var own := board.OneSidePieces(white);
    for i := 0 to |KingOffsets|
      invariant result == OffsetTargets(from, KingOffsets[..i], own)
    {
      var target := from + KingOffsets[i];
      if 0 <= target <= 63 {
        if target !in own {
          result := result + [target];
        }
      }
      assert KingOffsets[..i + 1][..i] == KingOffsets[..i];
    }
    assert KingOffsets[..|KingOffsets|] == KingOffsets;
    OffsetTargetsExact(from, KingOffsets, own);
  }

  // ---------------------------------------------------------------- knight

  const AllKnightOffsets: set<int> := {-6, 6, -10, 10, -15, 15, -17, 17}
  const North: set<int> := {6, 10, 15, 17}
  const South: set<int> := {-6, -10, -15, -17}
  const East: set<int> := {-6, 10, -15, 17}
  const West: set<int> := {6, -10, 15, -17}

  /** The order in which the model visits the offsets that survive; the
      HashSet of the source iterates in an unspecified order. */
  const KnightOffsetOrder: seq<int> := [-6, 6, -10, 10, -15, 15, -17, 17]

  /** The offsets that survive the exclusions of possible_knight_moves: south
      offsets below square 8, north offsets above square 55, west offsets
      when `from % 8 == 0` and east offsets when `from % 8 == 7`. The
      second-band exclusions of the source remove nothing. */
  function KnightOffsets(from: int): set<int> {
    var byRow := if from < 8 then AllKnightOffsets - South
                 else if from > 55 then AllKnightOffsets - North
                 else AllKnightOffsets;
    if from % 8 == 0 then byRow - West
    else if from % 8 == 7 then byRow - East
    else byRow
  }

  /** Every south and north offset also goes east or west, and every east and
      west offset also goes north or south, so the exclusions of the second
      rank band and the second file band are empty. */
  lemma SecondBandExclusionsEmpty()
    ensures South - (East + West) == {} && North - (East + West) == {}
    ensures West - (North + South) == {} && East - (North + South) == {}
  {}

  function KnightTargets(from: int, own: set<int>): set<int> {
    set t | 0 <= t < 64 && t - from in KnightOffsets(from) && t !in own
  }

  /** possible_knight_moves: every target once; the contract does not depend
      on the order in which the offsets are visited. */
  method KnightMoves(board: Chessboard, from: int, white: bool) returns (result: seq<int>)
    requires OnBoard(from)
    ensures Distinct(result)
    ensures forall t :: t in result <==> t in KnightTargets(from, board.OneSidePieces(white))
  {
    var rank := from % 8;
    var own := board.OneSidePieces(white);
    var moves := AllKnightOffsets;
    var horz := East + West;
    var vert := North + South;
    if from < 8 {
      moves := moves - South;
    } else if from > 55 {
      moves := moves - North;
    } else if from < 16 {
      moves := moves - (South - horz);
    } else if from > 47 {
      moves := moves - (North - horz);
    }
    assert moves == if from < 8 then AllKnightOffsets - South
                    else if from > 55 then AllKnightOffsets - North
                    else AllKnightOffsets by {
      SecondBandExclusionsEmpty();
    }
    if rank == 0 {
      moves := moves - West;
    } else if rank == 7 {
      moves := moves - East;
    } else if rank == 1 {
      moves := moves - (West - vert);
    } else if rank == 6 {
      moves := moves - (East - vert);
    }
    assert moves == KnightOffsets(from) by {
      SecondBandExclusionsEmpty();
    }
    result := VisitKnightOffsets(from, moves, own);
  }

  /** The loop of possible_knight_moves over the surviving offsets. */
  method VisitKnightOffsets(from: int, moves: set<int>, own: set<int>) returns (result: seq<int>)
    requires moves <= AllKnightOffsets
    ensures Distinct(result)
    ensures forall t :: t in result <==> OnBoard(t) && t - from in moves && t !in own
  {
    result := [];
    for i := 0 to |KnightOffsetOrder|
      invariant Distinct(result)
      invariant forall t :: t in result <==>
                  (OnBoard(t) && t - from in moves && t - from in KnightOffsetOrder[..i] && t !in own)
    {
      var mve := KnightOffsetOrder[i];
      if mve in moves {
        var target := from + mve;
        if 0 <= target <= 63 {
          if target !in own {
            result := result + [target];
          }
        }
      }
      assert KnightOffsetOrder[..i + 1] == KnightOffsetOrder[..i] + [mve];
    }
    assert KnightOffsetOrder[..|KnightOffsetOrder|] == KnightOffsetOrder;
  }

  // ---------------------------------------------------------------- pawn

  function Dir(white: bool): int { if white then 1 else -1 }

  /** `result.retain(|&square| (0..=63).contains(&square))` */
  function KeepOnBoard(s: seq<int>): seq<int> {
    if s == [] then [] else (if OnBoard(s[0]) then [s[0]] else []) + KeepOnBoard(s[1..])
  }

  /** The retain keeps exactly the on-board elements. */
  lemma {:induction false} KeepOnBoardMembership(s: seq<int>)
    ensures forall t :: t in KeepOnBoard(s) <==> t in s && OnBoard(t)
    decreases |s|
  {
    if s != [] {
      KeepOnBoardMembership(s[1..]);
      assert s == [s[0]] + s[1..];
    }
  }

  /** The retain leaves a sequence of on-board squares as it is. */
  lemma {:induction false} KeepOnBoardIdentity(s: seq<int>)
    requires forall i :: 0 <= i < |s| ==> OnBoard(s[i])
    ensures KeepOnBoard(s) == s
    decreases |s|
  {
    if s != [] {
      KeepOnBoardIdentity(s[1..]);
      assert s == [s[0]] + s[1..];
    }
  }

  /** What possible_pawn_moves gives. `1 << forward` (and `1 << double`)
      panic when the square is off the board. The push fires when the forward
      square is occupied, and the double step is tried when `from % 8` is 1
      (White) or 6 (Black). */
  /** `1 << forward` panics when the forward square is off the board, and
      `1 << double` when the double-step square is, which is tested only after
      an emitted push from the initial file index. */
  predicate PawnPanics(from: int, white: bool, taken: set<int>) {
    var forward := from + 8 * Dir(white);
    !OnBoard(forward)
    || (forward in taken && from % 8 == (if white then 1 else 6) && !OnBoard(forward + 8 * Dir(white)))
  }

  /** The squares pushed, in order: the push when the forward square is
      occupied, then the double step when also on the initial file index and
      that square is occupied, then the left and right diagonal captures. */
  function PawnPushes(from: int, white: bool, opps: set<int>, taken: set<int>): seq<int> {
    ForwardPushes(from, white, taken) + Capture(from + 7 * Dir(white), opps)
      + Capture(from + 9 * Dir(white), opps)
  }

  function ForwardPushes(from: int, white: bool, taken: set<int>): seq<int> {
    var forward := from + 8 * Dir(white);
    var double := forward + 8 * Dir(white);
    if forward !in taken then []
    else if from % 8 == (if white then 1 else 6) && double in taken then [forward, double]
    else [forward]
  }

  function Capture(diag: int, opps: set<int>): seq<int> {
    if 0 <= diag <= 63 && diag in opps then [diag] else []
  }

  /** What possible_pawn_moves gives. */
  function PawnOutcome(from: int, white: bool, opps: set<int>, taken: set<int>): Outcome<seq<int>>
    requires OnBoard(from)
  {
    if PawnPanics(from, white, taken) then Panicked
    else Returned(KeepOnBoard(PawnPushes(from, white, opps, taken)))
  }

  /** The pawn panics exactly when the forward square, or the double-step
      square tested after an emitted push, is off the board. Otherwise every
      target is on the board and a diagonal, push or double step away; the
      push is there exactly when the forward square is occupied, the double
      step exactly when the push is, `from % 8` is the initial index and the
      double-step square is occupied, and a diagonal exactly when it is on the
      board and holds an opponent piece. */
  lemma PawnOutcomeExact(from: int, white: bool, opps: set<int>, taken: set<int>)
    requires OnBoard(from)
    ensures var r, dir, initial := PawnOutcome(from, white, opps, taken), Dir(white), if white then 1 else 6;
      && (r.Panicked? <==> !OnBoard(from + 8 * dir)
                           || (from + 8 * dir in taken && from % 8 == initial && !OnBoard(from + 16 * dir)))
      && (r.Returned? ==> forall t :: t in r.value ==> OnBoard(t))
      && (r.Returned? ==> forall t :: t in r.value ==> t - from in {7 * dir, 8 * dir, 9 * dir, 16 * dir})
      && (r.Returned? ==> (from + 8 * dir in r.value <==> from + 8 * dir in taken))
      && (r.Returned? ==> (from + 16 * dir in r.value <==>
            from + 8 * dir in taken && from % 8 == initial && from + 16 * dir in taken))
      && (r.Returned? ==> (from + 7 * dir in r.value <==> OnBoard(from + 7 * dir) && from + 7 * dir in opps))
      && (r.Returned? ==> (from + 9 * dir in r.value <==> OnBoard(from + 9 * dir) && from + 9 * dir in opps))
  {
    if !PawnPanics(from, white, taken) {
      var pushes := PawnPushes(from, white, opps, taken);
      KeepOnBoardIdentity(pushes);
      PawnPushesExact(from, white, opps, taken);
    }
  }

  lemma PawnPushesExact(from: int, white: bool, opps: set<int>, taken: set<int>)
    requires OnBoard(from) && !PawnPanics(from, white, taken)
    ensures var r, dir, initial := PawnPushes(from, white, opps, taken), Dir(white), if white then 1 else 6;
      && (forall i :: 0 <= i < |r| ==> OnBoard(r[i]))
      && (forall t :: t in r ==> t - from in {7 * dir, 8 * dir, 9 * dir, 16 * dir})
      && (from + 8 * dir in r <==> from + 8 * dir in taken)
      && (from + 16 * dir in r <==> from + 8 * dir in taken && from % 8 == initial && from + 16 * dir in taken)
      && (from + 7 * dir in r <==> OnBoard(from + 7 * dir) && from + 7 * dir in opps)
      && (from + 9 * dir in r <==> OnBoard(from + 9 * dir) && from + 9 * dir in opps)
  {
    var dir := Dir(white);
    var f, l, g := ForwardPushes(from, white, taken), Capture(from + 7 * dir, opps), Capture(from + 9 * dir, opps);
    var r := PawnPushes(from, white, opps, taken);
    assert r == f + l + g;
    ForwardPushesExact(from, white, taken);
    assert forall t :: t in r <==> t in f || t in l || t in g;
    assert forall t :: t in l ==> t == from + 7 * dir && OnBoard(t);
    assert forall t :: t in g ==> t == from + 9 * dir && OnBoard(t);
    forall i | 0 <= i < |r| ensures OnBoard(r[i]) {
      assert r[i] in r;
    }
  }

  /** The forward pushes alone: the push and the double step, each exactly
      when its square is occupied (the double step only from the initial
      file index), and both on the board when the generator does not panic. */
  lemma ForwardPushesExact(from: int, white: bool, taken: set<int>)
    requires OnBoard(from) && !PawnPanics(from, white, taken)
    ensures var f, dir, initial := ForwardPushes(from, white, taken), Dir(white), if white then 1 else 6;
      && (forall t :: t in f ==> OnBoard(t) && (t == from + 8 * dir || t == from + 16 * dir))
      && (from + 8 * dir in f <==> from + 8 * dir in taken)
      && (from + 16 * dir in f <==> from + 8 * dir in taken && from % 8 == initial && from + 16 * dir in taken)
  {}

  /** possible_pawn_moves: pushes, then the two captures, then the retain. */
  method PawnMoves(board: Chessboard, from: int, white: bool) returns (r: Outcome<seq<int>>)
    requires OnBoard(from)
    ensures r == PawnOutcome(from, white, board.OneSidePieces(!white), board.BothSidePieces())
  {
    var result := [];
    var rank := from % 8;
    var direction := Dir(white);
    var initialRank := if white then 1 else 6;
    var opps := board.OneSidePieces(!white);
    var taken := board.BothSidePieces();
    var leftDiag := from + 7 * direction;
    var forward := from + 8 * direction;
    var rightDiag := from + 9 * direction;
    if !(0 <= forward < 64) {
      return Panicked;
    }
    if forward in taken {
      result := result + [forward];
      if rank == initialRank {
        var double := forward + 8 * direction;
        if !(0 <= double < 64) {
          return Panicked;
        }
        if double in taken {
          result := result + [double];
        }
      }
    }
    assert result == ForwardPushes(from, white, taken);
    if 0 <= leftDiag <= 63 && leftDiag in opps {
      result := result + [leftDiag];
    }
    assert result == ForwardPushes(from, white, taken) + Capture(leftDiag, opps);
    if 0 <= rightDiag <= 63 && rightDiag in opps {
      result := result + [rightDiag];
    }
    assert result == ForwardPushes(from, white, taken) + Capture(leftDiag, opps) + Capture(rightDiag, opps);
    result := KeepOnBoard(result);
    r := Returned(result);
  }

  // ---------------------------------------------------------------- dispatch

  datatype Kind = Pawn | Rook | Knight | Bishop | King | Queen

  function ToLower(c: char): char {
    if 'A' <= c <= 'Z' then (c as int + 32) as char else c
  }

  function KindLetter(kind: Kind): char {
    match kind
    case Pawn => 'p'
    case Rook => 'r'
    case Knight => 'n'
    case Bishop => 'b'
    case King => 'k'
    case Queen => 'q'
  }

  /** The dispatch of possible_moves on a glyph: the kind named by its lower
      case letter, and White when it is upper case; None for any other glyph. */
  function Classify(piece: char): (r: Option<(Kind, bool)>)
    ensures r.None? <==> piece !in "prnbqkPRNBQK"
    ensures r.Some? ==> KindLetter(r.value.0) == ToLower(piece) && (r.value.1 <==> 'A' <= piece <= 'Z')
  {
    var isWhite := 'A' <= piece <= 'Z';
    match ToLower(piece)
    case 'p' => Some((Pawn, isWhite))
    case 'r' => Some((Rook, isWhite))
    case 'n' => Some((Knight, isWhite))
    case 'b' => Some((Bishop, isWhite))
    case 'k' => Some((King, isWhite))
    case 'q' => Some((Queen, isWhite))
    case _ => None
  }

  /** `r` is what the generator of `kind` gives for a piece on `from`. */
  ghost predicate Generated(kind: Kind, from: int, white: bool, own: set<int>, opps: set<int>,
                            taken: set<int>, r: Outcome<Option<seq<int>>>)
    requires OnBoard(from)
  {
    match kind
    case Pawn => r == Lift(PawnOutcome(from, white, opps, taken))
    case Rook => r == Returned(Some(RookTargets(from, own, opps)))
    case Bishop => r == Lift(BishopOutcome(from, own, opps))
    case Queen => r == Lift(QueenOutcome(from, own, opps))
    case King => r == Returned(Some(OffsetTargets(from, KingOffsets, own)))
    case Knight => r.Returned? && r.value.Some? && Distinct(r.value.value)
                   && forall t :: t in r.value.value <==> t in KnightTargets(from, own)
  }

  function Lift(g: Outcome<seq<int>>): Outcome<Option<seq<int>>> {
    if g.Panicked? then Panicked else Returned(Some(g.value))
  }

  /** possible_moves: None for an empty square or an unknown glyph, otherwise
      the generator of the piece's kind, with the colour read from its case. */
  method PossibleMoves(board: Chessboard, square: int) returns (r: Outcome<Option<seq<int>>>)
    requires OnBoard(square)
    ensures board.PieceAt(square).None? ==> r == Returned(None)
    ensures board.PieceAt(square).Some? && Classify(board.PieceAt(square).value).None? ==> r == Returned(None)
    ensures board.PieceAt(square).Some? && Classify(board.PieceAt(square).value).Some? ==>
              var (kind, white) := Classify(board.PieceAt(square).value).value;
              Generated(kind, square, white, board.OneSidePieces(white), board.OneSidePieces(!white),
                        board.BothSidePieces(), r)
  {
    var piece := board.PieceAt(square);
    if piece.None? {
      return Returned(None);
    }
    var isWhite := 'A' <= piece.value <= 'Z';
    match ToLower(piece.value)
    case 'p' =>
      var moves := PawnMoves(board, square, isWhite);
      r := Lift(moves);
    case 'r' =>
      var moves := RookMoves(board, square, isWhite);
      r := Returned(Some(moves));
    case 'n' =>
      var moves := KnightMoves(board, square, isWhite);
      r := Returned(Some(moves));
    case 'b' =>
      var moves := BishopMoves(board, square, isWhite);
      r := Lift(moves);
    case 'k' =>
      var moves := KingMoves(board, square, isWhite);
      r := Returned(Some(moves));
    case 'q' =>
      var moves := QueenMoves(board, square, isWhite);
      r := Lift(moves);
    case _ =>
      r := Returned(None);
  }
}
