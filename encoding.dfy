/**
 * The two winner checks side by side: main.go's `checkWinner` over a
 * `[3][3]string` board and matching.go's `checkWinner` over a `[9]int` board
 * agree once cell (row, col) is read as square 3 * row + col and "" as 0.
 */
module Encoding {
  import opened TicTacToe
  import Matching

  /** The flat square of a grid position. */
  function SquareOf(p: Pos): (s: Matching.Square)
    ensures s / 3 == p.row && s % 3 == p.col
  {
    p.row * 3 + p.col
  }

  /** A cell encoding that keeps "" as 0 and sends distinct strings to distinct numbers. */
  ghost predicate Faithful(enc: string -> int) {
    enc("") == 0 && forall x, y :: enc(x) == enc(y) ==> x == y
  }

  /** The flat board that holds `enc` of cell (r, c) at square 3 * r + c. */
  function Flatten(g: Grid, enc: string -> int): (b: Matching.FlatBoard)
    ensures forall p: Pos :: b[SquareOf(p)] == enc(Cell(g, p))
  {
    [enc(g[0][0]), enc(g[0][1]), enc(g[0][2]),
     enc(g[1][0]), enc(g[1][1]), enc(g[1][2]),
     enc(g[2][0]), enc(g[2][1]), enc(g[2][2])]
  }

  /** The two tables list the same eight lines in the same order. */
  lemma LineTablesAgree()
    ensures |Lines| == |Matching.FlatLines|
    ensures forall k :: 0 <= k < |Lines| ==>
      Matching.FlatLines[k] == Matching.Triple(SquareOf(Lines[k].a), SquareOf(Lines[k].b), SquareOf(Lines[k].c))
  {
  }

  /**
   * The flat test (first square set, first == second, second == third) holds of a
   * line exactly when the grid test (first cell set, first == second, first == third)
   * holds of the same line.
   */
  lemma LineTestsAgree(g: Grid, enc: string -> int, k: nat)
    requires Faithful(enc)
    requires k < |Lines|
    ensures k < |Matching.FlatLines|
    ensures Matching.Completes(Flatten(g, enc), Matching.FlatLines[k]) <==> LineWins(g, Lines[k])
    ensures LineWins(g, Lines[k]) ==> Flatten(g, enc)[Matching.FlatLines[k].a] == enc(Cell(g, Lines[k].a))
  {
    LineTablesAgree();
    var b, l := Flatten(g, enc), Lines[k];
    assert b[SquareOf(l.a)] == enc(Cell(g, l.a));
    assert b[SquareOf(l.b)] == enc(Cell(g, l.b));
    assert b[SquareOf(l.c)] == enc(Cell(g, l.c));
  }

  lemma {:induction false} CheckWinnersAgreeFrom(g: Grid, enc: string -> int, k: nat)
    requires Faithful(enc)
    requires k <= |Lines|
    ensures k <= |Matching.FlatLines|
    ensures Matching.CheckWinnerFrom(Flatten(g, enc), k) == enc(CheckWinnerFrom(g, k))
    decreases |Lines| - k
  {
    LineTablesAgree();
    if k < |Lines| {
      LineTestsAgree(g, enc, k);
      if !LineWins(g, Lines[k]) {
        CheckWinnersAgreeFrom(g, enc, k + 1);
      }
    }
  }

  /** The flat check of the encoded board is the encoding of the grid check's result. */
  lemma CheckWinnersAgree(g: Grid, enc: string -> int)
    requires Faithful(enc)
    ensures Matching.CheckWinner(Flatten(g, enc)) == enc(CheckWinner(g))
  {
    CheckWinnersAgreeFrom(g, enc, 0);
  }

  /** The radix of `Code`: one more than the number of possible characters. */
  const Base: nat := 0x110001

  /** A string read as a base-`Base` numeral whose digits are its characters plus one. */
  function Code(s: string): (n: nat)
    ensures s != [] ==> n >= 1
  {
    if s == [] then 0
    else Code(s[..|s| - 1]) * Base + (s[|s| - 1] as int + 1)
  }

  /** A numeral with nonzero digits below `Base` has only one reading. */
  lemma DigitsUnique(a: nat, x: nat, a2: nat, x2: nat)
    requires 0 < x < Base && 0 < x2 < Base
    requires a * Base + x == a2 * Base + x2
    ensures a == a2 && x == x2
  {
  }

  /** Distinct strings have distinct codes. */
  lemma {:induction false} CodeInjective(s: string, t: string)
    requires Code(s) == Code(t)
    ensures s == t
    decreases |s|
  {
    if s != [] && t != [] {
      var si, ti := s[..|s| - 1], t[..|t| - 1];
      DigitsUnique(Code(si), s[|s| - 1] as int + 1, Code(ti), t[|t| - 1] as int + 1);
      CodeInjective(si, ti);
      assert s == si + [s[|s| - 1]] && t == ti + [t[|t| - 1]];
    }
  }

  /**
   * The cell encoding of the flat board (0 empty, 1 X, 2 O), extended to every
   * other string so that it stays injective.
   */
  function Symbol(s: string): (n: int)
    ensures s == "" <==> n == 0
  {
    if s == "" then 0
    else if s == "X" then 1
    else if s == "O" then 2
    else 2 + Code(s)
  }

  /** The flat board's own encoding meets `Faithful`. */
  lemma SymbolIsFaithful()
    ensures Faithful(Symbol)
  {
    forall x, y | Symbol(x) == Symbol(y) ensures x == y {
      if x != "" && x != "X" && x != "O" && y != "" && y != "X" && y != "O" {
        CodeInjective(x, y);
      }
    }
  }

  /**
   * With "" as 0, "X" as 1 and "O" as 2, the flat `checkWinner` of the encoded
   * board is the encoding of the grid `checkWinner`.
   */
  lemma SymbolBoardsAgree(g: Grid)
    ensures Matching.CheckWinner(Flatten(g, Symbol)) == Symbol(CheckWinner(g))
  {
    SymbolIsFaithful();
    CheckWinnersAgree(g, Symbol);
  }
}
