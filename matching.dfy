/**
 * The flat-board winner check of nakama-go-server/matching/matching.go:
 * `checkWinner` over `[9]int` (0 empty, 1 X, 2 O) and the shape of
 * `TicTacToeState`, whose handler callbacks are commented out in the source.
 */
module Matching {

  /** A cell index of the flat board: row * 3 + column. */
  type Square = i: int | 0 <= i < 9

  /** The Go `[9]int` board. */
  type FlatBoard = b: seq<int> | |b| == 9 witness [0, 0, 0, 0, 0, 0, 0, 0, 0]

  const EmptyFlatBoard: FlatBoard := [0, 0, 0, 0, 0, 0, 0, 0, 0]

  /** `TicTacToeState`; only its board is read by live code. */
  datatype TicTacToeState = TicTacToeState(
    board: FlatBoard,
    players: map<string, int>,
    order: seq<string>,
    turn: string,
    finished: bool,
    winner: int,
    meta: map<string, string>)

  datatype Triple = Triple(a: Square, b: Square, c: Square)

  /** The line table of `checkWinner`, in its order. */
  const FlatLines: seq<Triple> := [
    Triple(0, 1, 2),
    Triple(3, 4, 5),
    Triple(6, 7, 8),
    Triple(0, 3, 6),
    Triple(1, 4, 7),
    Triple(2, 5, 8),
    Triple(0, 4, 8),
    Triple(2, 4, 6)
  ]

  /** The test `checkWinner` applies to one line: the first cell is set and equals the second, which equals the third. */
  predicate Completes(b: FlatBoard, t: Triple) {
    b[t.a] != 0 && b[t.a] == b[t.b] && b[t.b] == b[t.c]
  }

  /** All three squares of line `t` hold `v`. */
  predicate FilledWith(b: FlatBoard, t: Triple, v: int) {
    b[t.a] == v && b[t.b] == v && b[t.c] == v
  }

  /** No line of the board is complete. */
  ghost predicate NoCompleteLine(b: FlatBoard) {
    forall k :: 0 <= k < |FlatLines| ==> !Completes(b, FlatLines[k])
  }

  /** The draw scan after the line scan: it stops at the first empty square, and returns 0 on every path. */
  function DrawScan(b: FlatBoard, i: nat): int
    requires i <= 9
    decreases 9 - i
  {
    if i == 9 then 0
    else if b[i] == 0 then 0  // not finished
    else DrawScan(b, i + 1)
  }

  /** The draw scan cannot change the result: it is 0 from every starting square. */
  lemma {:induction false} DrawScanIsZero(b: FlatBoard, i: nat)
    requires i <= 9
    ensures DrawScan(b, i) == 0
    decreases 9 - i
  {
    if i < 9 && b[i] != 0 {
      DrawScanIsZero(b, i + 1);
    }
  }

  /** The line scan of `checkWinner` from line `k` on, followed by the draw scan. */
  function CheckWinnerFrom(b: FlatBoard, k: nat): (r: int)
    requires k <= |FlatLines|
    decreases |FlatLines| - k
    ensures r != 0 ==>
      exists j :: k <= j < |FlatLines| && Completes(b, FlatLines[j]) && r == b[FlatLines[j].a] &&
        forall i :: k <= i < j ==> !Completes(b, FlatLines[i])
    ensures r == 0 <==> forall j :: k <= j < |FlatLines| ==> !Completes(b, FlatLines[j])
  {
    if k == |FlatLines| then DrawScanIsZero(b, 0); DrawScan(b, 0)
    else if Completes(b, FlatLines[k]) then b[FlatLines[k].a]
    else CheckWinnerFrom(b, k + 1)
  }

  /**
   * `checkWinner` over `[9]int`: the value of the first line in table order
   * whose first square is set and whose three squares are equal, else 0.
   */
  function CheckWinner(b: FlatBoard): (r: int)
    ensures r != 0 ==>
      exists j :: 0 <= j < |FlatLines| && Completes(b, FlatLines[j]) && r == b[FlatLines[j].a] &&
        forall i :: 0 <= i < j ==> !Completes(b, FlatLines[i])
    ensures r == 0 <==> NoCompleteLine(b)
  {
    CheckWinnerFrom(b, 0)
  }

  /** A completed line that comes first in the table decides the result. */
  lemma FirstCompleteLineDecides(b: FlatBoard, k: nat)
    requires k < |FlatLines| && Completes(b, FlatLines[k])
    requires forall i :: 0 <= i < k ==> !Completes(b, FlatLines[i])
    ensures CheckWinner(b) == b[FlatLines[k].a]
  {
  }

  /** A nonzero result fills all three squares of some line, so it is a value present on the board. */
  lemma NonzeroResultFillsALine(b: FlatBoard)
    requires CheckWinner(b) != 0
    ensures exists k :: 0 <= k < |FlatLines| && FilledWith(b, FlatLines[k], CheckWinner(b))
    ensures exists s :: 0 <= s < 9 && b[s] == CheckWinner(b)
  {
    var j :| 0 <= j < |FlatLines| && Completes(b, FlatLines[j]) && CheckWinner(b) == b[FlatLines[j].a];
    assert FilledWith(b, FlatLines[j], CheckWinner(b));
  }

  /**
   * With no complete line the result is 0 whether or not the board is full:
   * a full drawn board and an open board without a line give the same answer.
   */
  lemma DrawLooksUnfinished(full: FlatBoard, open: FlatBoard)
    requires NoCompleteLine(full) && NoCompleteLine(open)
    requires forall i :: 0 <= i < 9 ==> full[i] != 0
    requires exists i :: 0 <= i < 9 && open[i] == 0
    ensures CheckWinner(full) == CheckWinner(open) == 0
  {
  }

  /** The all-zero board yields 0. */
  lemma EmptyBoardYieldsZero()
    ensures CheckWinner(EmptyFlatBoard) == 0
  {
    forall k | 0 <= k < |FlatLines| ensures !Completes(EmptyFlatBoard, FlatLines[k]) {
      assert EmptyFlatBoard[FlatLines[k].a] == 0;
    }
  }
}
