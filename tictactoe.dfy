/**
 * The pure helpers of the Tic-Tac-Toe match handler (nakama-go-server/main.go):
 * the 3x3 string board, the table of the eight winning lines, `checkWinner`
 * and `isBoardFull`.
 */
module TicTacToe {

  /** A row or column index of the board. */
  type Index = i: int | 0 <= i < 3

  /** The Go `[3][3]string` board: three rows of three cells, "" when empty. */
  type Grid = g: seq<seq<string>> | |g| == 3 && forall i :: 0 <= i < 3 ==> |g[i]| == 3
    witness [["", "", ""], ["", "", ""], ["", "", ""]]

  /** The zero value of `[3][3]string`. */
  const EmptyGrid: Grid := [["", "", ""], ["", "", ""], ["", "", ""]]

  datatype Pos = Pos(row: Index, col: Index)

  /** One winning line: its three cells in table order. */
  datatype Line = Line(a: Pos, b: Pos, c: Pos)

  /** The eight lines in the order `checkWinner` visits them: rows, columns, diagonals. */
  const Lines: seq<Line> := [
    Line(Pos(0, 0), Pos(0, 1), Pos(0, 2)),
    Line(Pos(1, 0), Pos(1, 1), Pos(1, 2)),
    Line(Pos(2, 0), Pos(2, 1), Pos(2, 2)),
    Line(Pos(0, 0), Pos(1, 0), Pos(2, 0)),
    Line(Pos(0, 1), Pos(1, 1), Pos(2, 1)),
    Line(Pos(0, 2), Pos(1, 2), Pos(2, 2)),
    Line(Pos(0, 0), Pos(1, 1), Pos(2, 2)),
    Line(Pos(0, 2), Pos(1, 1), Pos(2, 0))
  ]

  function Cell(g: Grid, p: Pos): string {
    g[p.row][p.col]
  }

  /** The test `checkWinner` applies to one line. */
  predicate LineWins(g: Grid, l: Line) {
    Cell(g, l.a) != "" && Cell(g, l.a) == Cell(g, l.b) && Cell(g, l.a) == Cell(g, l.c)
  }

  /** Line `l` holds `s` in all three of its cells. */
  predicate FilledWith(g: Grid, l: Line, s: string) {
    Cell(g, l.a) == s && Cell(g, l.b) == s && Cell(g, l.c) == s
  }

  /** Some line of the board holds `s` in all three of its cells. */
  ghost predicate HasLineOf(g: Grid, s: string) {
    exists k :: 0 <= k < |Lines| && FilledWith(g, Lines[k], s)
  }

  /** The scan of `checkWinner` from line `k` on: the first winning line's symbol, or "". */
  function CheckWinnerFrom(g: Grid, k: nat): (r: string)
    requires k <= |Lines|
    decreases |Lines| - k
    ensures r == "" <==> forall j :: k <= j < |Lines| ==> !LineWins(g, Lines[j])
    ensures r != "" ==>
      exists j :: k <= j < |Lines| && LineWins(g, Lines[j]) && r == Cell(g, Lines[j].a) &&
        forall i :: k <= i < j ==> !LineWins(g, Lines[i])
  {
    if k == |Lines| then ""
    else if LineWins(g, Lines[k]) then Cell(g, Lines[k].a)
    else CheckWinnerFrom(g, k + 1)
  }

  /**
   * `checkWinner`: the symbol of the first of the eight lines whose three cells
   * are equal and not "", or "" when no line is complete.
   */
  function CheckWinner(g: Grid): (r: string)
    ensures r == "" <==> forall j :: 0 <= j < |Lines| ==> !LineWins(g, Lines[j])
    ensures r != "" ==>
      exists j :: 0 <= j < |Lines| && LineWins(g, Lines[j]) && r == Cell(g, Lines[j].a) &&
        forall i :: 0 <= i < j ==> !LineWins(g, Lines[i])
  {
    CheckWinnerFrom(g, 0)
  }

  /** A non-empty result of `checkWinner` fills all three cells of some line. */
  lemma WinnerFillsALine(g: Grid)
    requires CheckWinner(g) != ""
    ensures HasLineOf(g, CheckWinner(g))
  {
    var j :| 0 <= j < |Lines| && LineWins(g, Lines[j]) && CheckWinner(g) == Cell(g, Lines[j].a);
    assert FilledWith(g, Lines[j], CheckWinner(g));
  }

  /** `checkWinner` finds a winner exactly when some line is filled with one non-empty symbol. */
  lemma WinnerExistsIffLine(g: Grid)
    ensures CheckWinner(g) != "" <==> exists s :: s != "" && HasLineOf(g, s)
  {
    if CheckWinner(g) != "" {
      WinnerFillsALine(g);
    } else {
      forall s, k | s != "" && 0 <= k < |Lines|
        ensures !FilledWith(g, Lines[k], s)
      {
        assert !LineWins(g, Lines[k]);
      }
    }
  }

  /** The inner loop of `isBoardFull` over one row, from column `j` on. */
  function RowFullFrom(row: seq<string>, j: nat): (r: bool)
    requires j <= |row|
    decreases |row| - j
    ensures r <==> forall k :: j <= k < |row| ==> row[k] != ""
  {
    if j == |row| then true
    else if row[j] == "" then false
    else RowFullFrom(row, j + 1)
  }

  /** The outer loop of `isBoardFull`, from row `i` on. */
  function FullFrom(g: Grid, i: nat): (r: bool)
    requires i <= 3
    decreases 3 - i
    ensures r <==> forall a, b :: i <= a < 3 && 0 <= b < 3 ==> g[a][b] != ""
  {
    if i == 3 then true
    else if !RowFullFrom(g[i], 0) then false
    else FullFrom(g, i + 1)
  }

  /** `isBoardFull`: true exactly when no cell is "". */
  function IsBoardFull(g: Grid): (r: bool)
    ensures r <==> forall a, b :: 0 <= a < 3 && 0 <= b < 3 ==> g[a][b] != ""
  {
    FullFrom(g, 0)
  }

  /** The empty board has no winner and is not full. */
  lemma EmptyGridIsOpen()
    ensures CheckWinner(EmptyGrid) == "" && !IsBoardFull(EmptyGrid)
  {
    assert EmptyGrid[0][0] == "";
  }

  /** A main diagonal of X wins for X even though the rest of the board is empty. */
  lemma DiagonalWins()
    ensures CheckWinner([["X", "", ""], ["", "X", ""], ["", "", "X"]]) == "X"
  {
    var g: Grid := [["X", "", ""], ["", "X", ""], ["", "", "X"]];
    assert !LineWins(g, Lines[0]) && !LineWins(g, Lines[1]) && !LineWins(g, Lines[2]);
    assert !LineWins(g, Lines[3]) && !LineWins(g, Lines[4]) && !LineWins(g, Lines[5]);
    assert LineWins(g, Lines[6]);
  }

  /** A full board without a complete line has no winner: the draw case. */
  lemma FullBoardWithoutLine()
    ensures CheckWinner([["X", "O", "X"], ["X", "O", "O"], ["O", "X", "X"]]) == ""
    ensures IsBoardFull([["X", "O", "X"], ["X", "O", "O"], ["O", "X", "X"]])
  {
    var g: Grid := [["X", "O", "X"], ["X", "O", "O"], ["O", "X", "X"]];
    assert !LineWins(g, Lines[0]) && !LineWins(g, Lines[1]) && !LineWins(g, Lines[2]);
    assert !LineWins(g, Lines[3]) && !LineWins(g, Lines[4]) && !LineWins(g, Lines[5]);
    assert !LineWins(g, Lines[6]) && !LineWins(g, Lines[7]);
  }
}
