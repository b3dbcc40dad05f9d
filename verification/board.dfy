/**
 * The 3x3 tic-tac-toe board shared by both drafts of the grid game: a cell
 * holds 1 (Player1, "X"), -1 (Player2, "O") or 0 (empty), and a line is won
 * when its three cells sum to 3 or -3.
 */
module Board {

  /** The board as a value: three rows of three cells. */
  type Grid = seq<seq<int>>

  predicate IsGrid(g: Grid) {
    |g| == 3 && forall r :: 0 <= r < 3 ==> |g[r]| == 3
  }

  predicate IsMark(v: int) {
    v == -1 || v == 0 || v == 1
  }

  /** Every cell holds one of the three legal values. */
  predicate WellMarked(g: Grid)
    requires IsGrid(g)
  {
    forall r, c :: 0 <= r < 3 && 0 <= c < 3 ==> IsMark(g[r][c])
  }

  const EmptyGrid: Grid := [[0, 0, 0], [0, 0, 0], [0, 0, 0]]

  /** The row-major number of cell (r, c) gives back its row and column by division by three. */
  lemma RowMajorDivMod(r: nat, c: nat)
    requires r < 3 && c < 3
    ensures (3 * r + c) / 3 == r && (3 * r + c) % 3 == c
  {
    if r == 0 {
      assert 3 * r + c == c;
    } else if r == 1 {
      assert 3 * r + c == 3 + c;
    } else {
      assert 3 * r + c == 6 + c;
    }
  }

  /** The grid with cell (r, c) replaced by v. */
  function SetCell(g: Grid, r: nat, c: nat, v: int): (g': Grid)
    requires IsGrid(g) && r < 3 && c < 3
    ensures IsGrid(g') && g'[r][c] == v
    ensures forall i, j :: 0 <= i < 3 && 0 <= j < 3 && (i, j) != (r, c) ==> g'[i][j] == g[i][j]
  {
    g[r := g[r][c := v]]
  }

  /** Writing a legal value keeps every cell legal. */
  lemma WellMarkedAfterSet(g: Grid, r: nat, c: nat, v: int)
    requires IsGrid(g) && WellMarked(g) && r < 3 && c < 3 && IsMark(v)
    ensures WellMarked(SetCell(g, r, c, v))
  {
  }

  /** The cells of a 3x3 array, as a value. */
  function GridOf(a: array2<int>): (g: Grid)
    requires a.Length0 == 3 && a.Length1 == 3
    reads a
    ensures IsGrid(g)
    ensures forall r, c :: 0 <= r < 3 && 0 <= c < 3 ==> g[r][c] == a[r, c]
  {
    [[a[0, 0], a[0, 1], a[0, 2]],
     [a[1, 0], a[1, 1], a[1, 2]],
     [a[2, 0], a[2, 1], a[2, 2]]]
  }

  /** The eight winning lines in scan order: rows, then columns, then diagonals. */
  const Lines: seq<seq<(nat, nat)>> := [
    [(0, 0), (0, 1), (0, 2)],
    [(1, 0), (1, 1), (1, 2)],
    [(2, 0), (2, 1), (2, 2)],
    [(0, 0), (1, 0), (2, 0)],
    [(0, 1), (1, 1), (2, 1)],
    [(0, 2), (1, 2), (2, 2)],
    [(0, 0), (1, 1), (2, 2)],
    [(0, 2), (1, 1), (2, 0)]
  ]

  /** Cell i of line k; every cell of the table lies on the board. */
  function LineCell(k: nat, i: nat): (rc: (nat, nat))
    requires k < 8 && i < 3
    ensures rc.0 < 3 && rc.1 < 3
  {
    assert |Lines| == 8 && forall j :: 0 <= j < 8 ==> |Lines[j]| == 3;
    assert forall j, t :: 0 <= j < 8 && 0 <= t < 3 ==> Lines[j][t].0 < 3 && Lines[j][t].1 < 3;
    Lines[k][i]
  }

  function Cell(g: Grid, rc: (nat, nat)): int
    requires IsGrid(g) && rc.0 < 3 && rc.1 < 3
  {
    g[rc.0][rc.1]
  }

  /** The sum of the three cells of line k of the table. */
  function LineSum(g: Grid, k: nat): int
    requires IsGrid(g) && k < 8
  {
    Cell(g, LineCell(k, 0)) + Cell(g, LineCell(k, 1)) + Cell(g, LineCell(k, 2))
  }

  predicate IsDecided(g: Grid, k: nat)
    requires IsGrid(g) && k < 8
  {
    LineSum(g, k) == 3 || LineSum(g, k) == -3
  }

  function RowSum(g: Grid, r: nat): int
    requires IsGrid(g) && r < 3
  {
    g[r][0] + g[r][1] + g[r][2]
  }

  function ColSum(g: Grid, c: nat): int
    requires IsGrid(g) && c < 3
  {
    g[0][c] + g[1][c] + g[2][c]
  }

  /** Diagonal 0 holds the cells with r == c, diagonal 1 those with r + c == 2. */
  function DiagSum(g: Grid, d: nat): int
    requires IsGrid(g) && d < 2
  {
    if d == 0 then g[0][0] + g[1][1] + g[2][2] else g[0][2] + g[1][1] + g[2][0]
  }

  /**
   * The line table and the row/column/diagonal sums describe the same eight
   * lines: line r is row r, line 3 + c is column c, line 6 + d is diagonal d.
   */
  lemma LineSumsAreRowColDiagSums(g: Grid)
    requires IsGrid(g)
    ensures forall r :: 0 <= r < 3 ==> LineSum(g, r) == RowSum(g, r)
    ensures forall c :: 0 <= c < 3 ==> LineSum(g, 3 + c) == ColSum(g, c)
    ensures forall d :: 0 <= d < 2 ==> LineSum(g, 6 + d) == DiagSum(g, d)
  {
  }

  /** Two grids with the same cells are the same grid. */
  lemma GridsEqual(g: Grid, h: Grid)
    requires IsGrid(g) && IsGrid(h)
    requires forall r, c :: 0 <= r < 3 && 0 <= c < 3 ==> g[r][c] == h[r][c]
    ensures g == h
  {
    forall r | 0 <= r < 3
      ensures g[r] == h[r]
    {
      assert g[r][0] == h[r][0] && g[r][1] == h[r][1] && g[r][2] == h[r][2];
    }
  }

  /** No cell is empty. */
  predicate Full(g: Grid)
    requires IsGrid(g)
  {
    forall r, c :: 0 <= r < 3 && 0 <= c < 3 ==> g[r][c] != 0
  }

  function Occupied(v: int): nat {
    if v != 0 then 1 else 0
  }

  function RowOccupied(row: seq<int>): nat
    requires |row| == 3
  {
    Occupied(row[0]) + Occupied(row[1]) + Occupied(row[2])
  }

  /** The number of non-empty cells. */
  function MarkedCount(g: Grid): (n: nat)
    requires IsGrid(g)
    ensures n <= 9
    ensures n == 9 <==> Full(g)
  {
    RowOccupied(g[0]) + RowOccupied(g[1]) + RowOccupied(g[2])
  }

  /** Cell (r, c) lies on line k of the table. */
  predicate OnLine(k: nat, r: nat, c: nat)
    requires k < 8
  {
    LineCell(k, 0) == (r, c) || LineCell(k, 1) == (r, c) || LineCell(k, 2) == (r, c)
  }

  /** Every cell of line k lies on line k. */
  lemma LineCellOnLine(k: nat, i: nat)
    requires k < 8 && i < 3
    ensures OnLine(k, LineCell(k, i).0, LineCell(k, i).1)
  {
    if i == 0 {
      assert LineCell(k, 0) == (LineCell(k, i).0, LineCell(k, i).1);
    } else if i == 1 {
      assert LineCell(k, 1) == (LineCell(k, i).0, LineCell(k, i).1);
    } else {
      assert LineCell(k, 2) == (LineCell(k, i).0, LineCell(k, i).1);
    }
  }

  /** Line k passes through (r, c) exactly when it is row r, column c, or a diagonal through it. */
  lemma OnLineIff(k: nat, r: nat, c: nat)
    requires k < 8 && r < 3 && c < 3
    ensures OnLine(k, r, c) <==>
      (k < 3 && k == r) || (3 <= k < 6 && k - 3 == c) || (k == 6 && r == c) || (k == 7 && r + c == 2)
  {
  }

  /**
   * Marking the empty cell (r, c) with v leaves every line off that cell
   * as it was, and a line it decides is made of the new mark.
   */
  lemma LineAfterMark(g: Grid, r: nat, c: nat, v: int, k: nat)
    requires IsGrid(g) && WellMarked(g) && r < 3 && c < 3 && g[r][c] == 0
    requires (v == 1 || v == -1) && k < 8
    ensures !OnLine(k, r, c) ==> LineSum(SetCell(g, r, c, v), k) == LineSum(g, k)
    ensures IsDecided(g, k) ==> LineSum(SetCell(g, r, c, v), k) == LineSum(g, k)
    ensures !IsDecided(g, k) && IsDecided(SetCell(g, r, c, v), k) ==> LineSum(SetCell(g, r, c, v), k) == 3 * v
  {
    var a, b, d := LineCell(k, 0), LineCell(k, 1), LineCell(k, 2);
    assert a != b && b != d && a != d;
    assert IsMark(Cell(g, a)) && IsMark(Cell(g, b)) && IsMark(Cell(g, d));
  }

  /** The sum of all cells: the number of 1 marks minus the number of -1 marks. */
  function Total(g: Grid): int
    requires IsGrid(g)
  {
    RowSum(g, 0) + RowSum(g, 1) + RowSum(g, 2)
  }

  /** Writing v into an empty cell adds v to the total. */
  lemma TotalAfterSet(g: Grid, r: nat, c: nat, v: int)
    requires IsGrid(g) && r < 3 && c < 3 && g[r][c] == 0
    ensures Total(SetCell(g, r, c, v)) == Total(g) + v
  {
    var g' := SetCell(g, r, c, v);
    assert forall i :: 0 <= i < 3 && i != r ==> g'[i] == g[i];
    assert g'[r] == g[r][c := v];
  }

  /** Marking an empty cell raises the count of marked cells by one. */
  lemma MarkedCountAfterSet(g: Grid, r: nat, c: nat, v: int)
    requires IsGrid(g) && r < 3 && c < 3 && g[r][c] == 0 && v != 0
    ensures MarkedCount(SetCell(g, r, c, v)) == MarkedCount(g) + 1
  {
    var g' := SetCell(g, r, c, v);
    assert forall i :: 0 <= i < 3 && i != r ==> g'[i] == g[i];
    assert g'[r] == g[r][c := v];
  }
}
