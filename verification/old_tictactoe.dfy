/**
 * The earlier tic-tac-toe engine behind the terminal controller. Besides
 * the board it keeps running sums of every row, column and diagonal and a
 * move counter, updated one move at a time; a win is checked only on the
 * lines through the latest move. It also has a greedy opponent: complete
 * its own line of two, else block the other side's, else play anywhere.
 * The seats, the mark values and the winner are those of the network
 * engine's model.
 */
module OldTicTacToe {
  import opened Wrappers
  import opened Board
  import opened TicTacToe

  datatype GameState = Menu | Playing | GameOver

  datatype GameMode = PvAI | PvP

  /** The outcome in which seat p has won. */
  function WinnerFor(p: Player): (w: GameWinner)
    ensures w == GameWinner.Player1 <==> p == Player.Player1
    ensures w == GameWinner.Player1 || w == GameWinner.Player2
  {
    if p == Player.Player1 then GameWinner.Player1 else GameWinner.Player2
  }

  /** The row, the column or a diagonal through (row, col) holds three marks of p. */
  predicate CompletesLine(g: Grid, row: nat, col: nat, p: Player)
    requires IsGrid(g) && row < 3 && col < 3
  {
    var w := 3 * MarkValue(p);
    RowSum(g, row) == w || ColSum(g, col) == w
    || (row == col && DiagSum(g, 0) == w) || (row + col == 2 && DiagSum(g, 1) == w)
  }

  /** On a board with no decided line, a new mark can decide only lines through it, and only for its own side. */
  lemma OnlyLinesThroughMoveDecided(g: Grid, row: nat, col: nat, v: int)
    requires IsGrid(g) && WellMarked(g) && row < 3 && col < 3 && g[row][col] == 0 && (v == 1 || v == -1)
    requires forall k :: 0 <= k < 8 ==> !IsDecided(g, k)
    ensures forall k :: 0 <= k < 8 && IsDecided(SetCell(g, row, col, v), k) ==>
      OnLine(k, row, col) && LineSum(SetCell(g, row, col, v), k) == 3 * v
  {
    var g' := SetCell(g, row, col, v);
    forall k | 0 <= k < 8
      ensures IsDecided(g', k) ==> OnLine(k, row, col) && LineSum(g', k) == 3 * v
    {
      LineAfterMark(g, row, col, v, k);
      assert !IsDecided(g, k);
      if !OnLine(k, row, col) {
        assert LineSum(g', k) == LineSum(g, k);
      }
    }
  }

  /**
   * On a board where no line was decided, checking only the lines through
   * the latest move gives the verdict of the full eight-line scan: a
   * completed line there is a win for the mover, a ninth mark without one
   * is a tie, and anything else leaves the game running.
   */
  lemma WinCheckAgreesWithFullScan(g: Grid, row: nat, col: nat, p: Player, prev: GameWinner)
    requires IsGrid(g) && WellMarked(g) && row < 3 && col < 3 && g[row][col] == 0
    requires forall k :: 0 <= k < 8 ==> !IsDecided(g, k)
    ensures var g' := SetCell(g, row, col, MarkValue(p));
      (CompletesLine(g', row, col, p) ==> CheckedWinner(g', prev) == WinnerFor(p))
      && (!CompletesLine(g', row, col, p) && MarkedCount(g') == 9 ==> CheckedWinner(g', prev) == GameWinner.Tie)
      && (!CompletesLine(g', row, col, p) && MarkedCount(g') < 9 ==> CheckedWinner(g', prev) == prev)
  {
    var v := MarkValue(p);
    var g' := SetCell(g, row, col, v);
    OnlyLinesThroughMoveDecided(g, row, col, v);
    if CompletesLine(g', row, col, p) {
      var k := CompletedLineIsDecided(g', row, col, p);
      var first := FirstDecidedLine(g', 0);
      assert first.Some? && LineSum(g', first.value) == 3 * v;
    } else {
      UndecidedThroughMove(g', row, col, p);
      MarkedCountAfterSet(g, row, col, v);
    }
  }

  /** A completed line through (row, col) is one of the eight decided lines. */
  lemma CompletedLineIsDecided(g: Grid, row: nat, col: nat, p: Player) returns (k: nat)
    requires IsGrid(g) && row < 3 && col < 3 && CompletesLine(g, row, col, p)
    ensures k < 8 && IsDecided(g, k) && OnLine(k, row, col)
  {
    var v := MarkValue(p);
    LineSumsAreRowColDiagSums(g);
    k := if RowSum(g, row) == 3 * v then row
      else if ColSum(g, col) == 3 * v then 3 + col
      else if row == col && DiagSum(g, 0) == 3 * v then 6
      else 7;
    OnLineIff(k, row, col);
  }

  /** When no line through (row, col) holds three marks of p, no line through it holds three of p. */
  lemma UndecidedThroughMove(g: Grid, row: nat, col: nat, p: Player)
    requires IsGrid(g) && row < 3 && col < 3 && !CompletesLine(g, row, col, p)
    ensures forall k :: 0 <= k < 8 && OnLine(k, row, col) ==> LineSum(g, k) != 3 * MarkValue(p)
  {
    LineSumsAreRowColDiagSums(g);
    forall k | 0 <= k < 8 && OnLine(k, row, col)
      ensures LineSum(g, k) != 3 * MarkValue(p)
    {
      OnLineIff(k, row, col);
    }
  }

  /** Marking the empty cell (r, c) with v adds v to its row, its column and each diagonal through it. */
  lemma SumsAfterMark(g: Grid, r: nat, c: nat, v: int)
    requires IsGrid(g) && r < 3 && c < 3 && g[r][c] == 0
    ensures forall i :: 0 <= i < 3 ==> RowSum(SetCell(g, r, c, v), i) == RowSum(g, i) + (if i == r then v else 0)
    ensures forall i :: 0 <= i < 3 ==> ColSum(SetCell(g, r, c, v), i) == ColSum(g, i) + (if i == c then v else 0)
    ensures DiagSum(SetCell(g, r, c, v), 0) == DiagSum(g, 0) + (if r == c then v else 0)
    ensures DiagSum(SetCell(g, r, c, v), 1) == DiagSum(g, 1) + (if r + c == 2 then v else 0)
  {
    var g' := SetCell(g, r, c, v);
    assert forall i :: 0 <= i < 3 && i != r ==> g'[i] == g[i];
    assert g'[r] == g[r][c := v];
  }

  // ---------------------------------------------------------------------
  // The opponent's choice of line, as a value
  // ---------------------------------------------------------------------

  /** The last of the first n lines, in scan order, whose sum is v. */
  function LastLineWithSum(g: Grid, v: int, n: nat): (k: Option<nat>)
    requires IsGrid(g) && n <= 8
    ensures k.Some? ==> k.value < n && LineSum(g, k.value) == v && forall j :: k.value < j < n ==> LineSum(g, j) != v
    ensures k.None? ==> forall j :: 0 <= j < n ==> LineSum(g, j) != v
  {
    if n == 0 then None
    else if LineSum(g, n - 1) == v then Some(n - 1)
    else LastLineWithSum(g, v, n - 1)
  }

  /** Scanning one more line: the (n+1)-th line, if its sum is the one sought, becomes the latest match for both offence and defence. */
  lemma LastLineStep(g: Grid, n: nat)
    requires IsGrid(g) && n < 8
    ensures LastLineWithSum(g, -2, n + 1) == if LineSum(g, n) == -2 then Some(n) else LastLineWithSum(g, -2, n)
    ensures LastLineWithSum(g, 2, n + 1) == if LineSum(g, n) == 2 then Some(n) else LastLineWithSum(g, 2, n)
  {
  }

  /** The line to complete (two O marks) if there is one, else the line to block (two X marks). */
  function AiTarget(g: Grid): Option<nat>
    requires IsGrid(g)
  {
    var offense := LastLineWithSum(g, -2, 8);
    if offense.Some? then offense else LastLineWithSum(g, 2, 8)
  }

  /** The opponent's target, named: the offence line if there is one, else the defence line, else none. */
  lemma AiTargetFocus(g: Grid)
    requires IsGrid(g)
    ensures var offense, defense := Focus(LastLineWithSum(g, -2, 8)), Focus(LastLineWithSum(g, 2, 8));
      Focus(AiTarget(g)) == if offense.0 != "" then offense else if defense.0 != "" then defense else ("", 9)
  {
  }

  /** How a line is named: "row", "col" or "diag" with its index; no line is ("", 9). */
  function Focus(k: Option<nat>): (string, nat) {
    match k
    case None => ("", 9)
    case Some(k) => if k < 3 then ("row", k) else if k < 6 then ("col", k - 3) else ("diag", k - 6)
  }

  /** Cell (r, c) lies on the line named by direction and index. */
  predicate Targets(direction: string, index: nat, r: nat, c: nat) {
    if direction == "row" then r == index
    else if direction == "col" then c == index
    else if direction == "diag" then (index == 0 && r == c) || (index == 1 && r + c == 2)
    else false
  }

  lemma TargetsIsOnLine(k: nat, r: nat, c: nat)
    requires k < 8 && r < 3 && c < 3
    ensures Targets(Focus(Some(k)).0, Focus(Some(k)).1, r, c) <==> OnLine(k, r, c)
  {
    OnLineIff(k, r, c);
  }

  /**
   * The line the opponent aims at is a threat: two equal marks and one
   * empty cell, its own two O marks whenever it has such a line anywhere.
   */
  lemma AiTargetIsThreat(g: Grid)
    requires IsGrid(g) && WellMarked(g) && AiTarget(g).Some?
    ensures var k := AiTarget(g).value;
      k < 8 && (LineSum(g, k) == -2 || LineSum(g, k) == 2)
      && ((exists j :: 0 <= j < 8 && LineSum(g, j) == -2) ==> LineSum(g, k) == -2)
      && (exists i :: 0 <= i < 3 && Cell(g, LineCell(k, i)) == 0)
  {
    var k := AiTarget(g).value;
    ThreatHasEmptyCell(g, k);
  }

  /** A line with sum 2 or -2 has an empty cell. */
  lemma ThreatHasEmptyCell(g: Grid, k: nat)
    requires IsGrid(g) && WellMarked(g) && k < 8 && (LineSum(g, k) == -2 || LineSum(g, k) == 2)
    ensures exists i :: 0 <= i < 3 && Cell(g, LineCell(k, i)) == 0
  {
    var a, b, d := LineCell(k, 0), LineCell(k, 1), LineCell(k, 2);
    assert IsMark(Cell(g, a)) && IsMark(Cell(g, b)) && IsMark(Cell(g, d));
    if Cell(g, a) == 0 {
      assert Cell(g, LineCell(k, 0)) == 0;
    } else if Cell(g, b) == 0 {
      assert Cell(g, LineCell(k, 1)) == 0;
    } else {
      assert Cell(g, LineCell(k, 2)) == 0;
    }
  }

  /** The empty cells among the first n cells in row-major order, in that order. */
  function FreeSpotsBefore(g: Grid, n: nat): seq<(nat, nat)>
    requires IsGrid(g) && n <= 9
  {
    if n == 0 then []
    else
      var p := ((n - 1) / 3, (n - 1) % 3);
      FreeSpotsBefore(g, n - 1) + (if g[p.0][p.1] == 0 then [p] else [])
  }

  /** Scanning cell (r, c) appends it exactly when it is empty. */
  lemma FreeSpotsStep(g: Grid, r: nat, c: nat)
    requires IsGrid(g) && r < 3 && c < 3
    ensures FreeSpotsBefore(g, 3 * r + c + 1) == FreeSpotsBefore(g, 3 * r + c) + (if g[r][c] == 0 then [(r, c)] else [])
  {
    RowMajorDivMod(r, c);
  }

  /** The cells listed are exactly the empty cells among the first n. */
  lemma {:induction false} FreeSpotsMembers(g: Grid, n: nat)
    requires IsGrid(g) && n <= 9
    ensures forall s :: s in FreeSpotsBefore(g, n) <==> s.0 < 3 && s.1 < 3 && 3 * s.0 + s.1 < n && g[s.0][s.1] == 0
  {
    if n > 0 {
      FreeSpotsMembers(g, n - 1);
    }
  }

  /** The line the opponent aims at has a free cell, so the scan of the free cells finds one on it. */
  lemma TargetLineHasFreeSpot(g: Grid, spots: seq<(nat, nat)>)
    requires IsGrid(g) && WellMarked(g) && AiTarget(g).Some? && spots == FreeSpotsBefore(g, 9)
    ensures exists u :: 0 <= u < |spots| && Targets(Focus(AiTarget(g)).0, Focus(AiTarget(g)).1, spots[u].0, spots[u].1)
  {
    var k := AiTarget(g).value;
    assert LineSum(g, k) == -2 || LineSum(g, k) == 2;
    ThreatHasEmptyCell(g, k);
    var i :| 0 <= i < 3 && Cell(g, LineCell(k, i)) == 0;
    var spot := LineCell(k, i);
    FreeSpotsMembers(g, 9);
    assert spot in spots;
    var u :| 0 <= u < |spots| && spots[u] == spot;
    LineCellOnLine(k, i);
    TargetsIsOnLine(k, spot.0, spot.1);
    var focus := Focus(AiTarget(g));
    assert focus == Focus(Some(k));
    assert Targets(focus.0, focus.1, spots[u].0, spots[u].1);
  }

  /** A board that is not full has a free cell. */
  lemma FreeSpotsExist(g: Grid)
    requires IsGrid(g) && !Full(g)
    ensures |FreeSpotsBefore(g, 9)| > 0
  {
    var r, c :| 0 <= r < 3 && 0 <= c < 3 && g[r][c] == 0;
    FreeSpotsMembers(g, 9);
    assert (r, c) in FreeSpotsBefore(g, 9);
  }

  /** The empty board: no marks, and every line sums to zero. */
  lemma EmptyGridSums()
    ensures IsGrid(EmptyGrid) && WellMarked(EmptyGrid) && MarkedCount(EmptyGrid) == 0
    ensures forall i :: 0 <= i < 3 ==> RowSum(EmptyGrid, i) == 0 && ColSum(EmptyGrid, i) == 0
    ensures DiagSum(EmptyGrid, 0) == 0 && DiagSum(EmptyGrid, 1) == 0
  {
  }

  /** A new 3 by 3 board of empty cells. */
  method NewEmptyBoard() returns (cells: array2<int>)
    ensures fresh(cells) && cells.Length0 == 3 && cells.Length1 == 3
    ensures forall r, c :: 0 <= r < 3 && 0 <= c < 3 ==> cells[r, c] == EmptyGrid[r][c]
  {
    cells := new int[3, 3]((r, c) => 0);
  }

  /** A new array of n running sums, all zero. */
  method NewZeroSums(n: nat) returns (sums: array<int>)
    ensures fresh(sums) && sums.Length == n
    ensures forall i :: 0 <= i < n ==> sums[i] == 0
  {
    sums := new int[n](_ => 0);
  }

  // ---------------------------------------------------------------------
  // The engine
  // ---------------------------------------------------------------------

  class TicTacToeGame {
    var gameRunning: bool
    var gameState: GameState
    var gameMode: GameMode
    var winner: GameWinner
    var whosTurn: Player
    var turnCounter: nat
    const board: array2<int>
    const rowSum: array<int>
    const colSum: array<int>
    const diagSum: array<int>

    /** The board as a value. */
    ghost var grid: Grid

    /**
     * The board array holds the grid, whose cells are marks; every running
     * sum is the sum of its line; the counter is the number of marked cells.
     */
    ghost predicate Valid()
      reads this, board, rowSum, colSum, diagSum
    {
      board.Length0 == 3 && board.Length1 == 3
      && rowSum.Length == 3 && colSum.Length == 3 && diagSum.Length == 2
      && rowSum != colSum && rowSum != diagSum && colSum != diagSum
      && IsGrid(grid) && WellMarked(grid)
      && (forall r, c :: 0 <= r < 3 && 0 <= c < 3 ==> board[r, c] == grid[r][c])
      && (forall i :: 0 <= i < 3 ==> rowSum[i] == RowSum(grid, i) && colSum[i] == ColSum(grid, i))
      && diagSum[0] == DiagSum(grid, 0) && diagSum[1] == DiagSum(grid, 1)
      && turnCounter == MarkedCount(grid)
    }

    constructor (gameMode: GameMode)
      ensures Valid() && fresh(board) && fresh(rowSum) && fresh(colSum) && fresh(diagSum)
      ensures grid == EmptyGrid && turnCounter == 0
      ensures whosTurn == Player.Player1 && winner == GameWinner.Pending
      ensures gameState == Menu && this.gameMode == gameMode && gameRunning
    {
      gameRunning := true;
      gameState := Menu;
      this.gameMode := gameMode;
      winner := GameWinner.Pending;
      whosTurn := Player.Player1;
      turnCounter := 0;
      var cells := NewEmptyBoard();
      var rows := NewZeroSums(3);
      var cols := NewZeroSums(3);
      var diags := NewZeroSums(2);
      EmptyGridSums();
      board, rowSum, colSum, diagSum := cells, rows, cols, diags;
      grid := EmptyGrid;
    }

    /** A cell may be chosen when it is on the board and empty. */
    function ValidateChoice(row: nat, col: nat): (ok: bool)
      requires Valid()
      reads this, board, rowSum, colSum, diagSum
      ensures ok <==> row < 3 && col < 3 && grid[row][col] == 0
    {
      if row >= 3 || col >= 3 then false
      else board[row, col] == 0
    }

    /** Marks an empty cell for the seat to move, keeping the sums and the counter in step. */
    method MarkSpot(row: nat, col: nat)
      requires Valid() && row < 3 && col < 3 && grid[row][col] == 0
      modifies board, rowSum, colSum, diagSum, this`turnCounter, this`grid
      ensures Valid()
      ensures grid == SetCell(old(grid), row, col, MarkValue(whosTurn))
      ensures turnCounter == old(turnCounter) + 1
    {
      var markValue := MarkValue(whosTurn);
      ghost var marked := SetCell(grid, row, col, markValue);
      SumsAfterMark(grid, row, col, markValue);
      MarkedCountAfterSet(grid, row, col, markValue);
      WellMarkedAfterSet(grid, row, col, markValue);
      board[row, col] := markValue;
      assert forall r, c :: 0 <= r < 3 && 0 <= c < 3 ==> board[r, c] == marked[r][c];
      AddToSums(row, col, markValue);
      grid := marked;
      turnCounter := turnCounter + 1;
    }

    /** Adds v to the running sums of the row, the column and each diagonal through (row, col). */
    method AddToSums(row: nat, col: nat, v: int)
      requires rowSum.Length == 3 && colSum.Length == 3 && diagSum.Length == 2
      requires rowSum != colSum && rowSum != diagSum && colSum != diagSum
      requires row < 3 && col < 3
      modifies rowSum, colSum, diagSum
      ensures forall i :: 0 <= i < 3 ==> rowSum[i] == old(rowSum[i]) + (if i == row then v else 0)
      ensures forall i :: 0 <= i < 3 ==> colSum[i] == old(colSum[i]) + (if i == col then v else 0)
      ensures diagSum[0] == old(diagSum[0]) + (if row == col then v else 0)
      ensures diagSum[1] == old(diagSum[1]) + (if row + col == 2 then v else 0)
    {
      rowSum[row] := rowSum[row] + v;
      colSum[col] := colSum[col] + v;
      if row == col {
        diagSum[0] := diagSum[0] + v;
      }
      if row + col == 2 {
        diagSum[1] := diagSum[1] + v;
      }
    }

    /**
     * Checks the lines through the latest move for three marks of the seat
     * to move (1, a win), else a full count of nine (2, a tie), else 0 with
     * nothing changed.
     */
    method WinCheck(row: nat, col: nat) returns (status: nat)
      requires Valid() && row < 3 && col < 3
      modifies this`winner, this`gameState
      ensures status == 1 <==> CompletesLine(grid, row, col, whosTurn)
      ensures status == 2 <==> !CompletesLine(grid, row, col, whosTurn) && turnCounter == 9
      ensures status <= 2
      ensures status == 1 ==> winner == WinnerFor(whosTurn) && gameState == GameOver
      ensures status == 2 ==> winner == GameWinner.Tie && gameState == GameOver
      ensures status == 0 ==> winner == old(winner) && gameState == old(gameState)
    {
      var winValue := MarkValue(whosTurn) * 3;
      var potentialWinner := WinnerFor(whosTurn);
      status := 0;
      if rowSum[row] == winValue || colSum[col] == winValue {
        status := 1;
      }
      if row == col && diagSum[0] == winValue {
        status := 1;
      }
      if row + col == 2 && diagSum[1] == winValue {
        status := 1;
      }
      if status == 1 {
        winner := potentialWinner;
        gameState := GameOver;
      } else if turnCounter == 9 {
        winner := GameWinner.Tie;
        gameState := GameOver;
        status := 2;
      }
    }

    method NextTurn()
      modifies this`whosTurn
      ensures whosTurn == Opponent(old(whosTurn))
    {
      whosTurn := if whosTurn == Player.Player1 then Player.Player2 else Player.Player1;
    }

    /** Each running sum is the sum of its line in scan order. */
    lemma RunningSumsAreLineSums()
      requires Valid()
      ensures forall i :: 0 <= i < 3 ==> rowSum[i] == LineSum(grid, i) && colSum[i] == LineSum(grid, 3 + i)
      ensures forall i :: 0 <= i < 2 ==> diagSum[i] == LineSum(grid, 6 + i)
    {
      LineSumsAreRowColDiagSums(grid);
    }

    /**
     * Names the line the opponent aims at: the last line in scan order
     * (rows, columns, diagonals) with two O marks and an empty cell, or
     * failing that the last with two X marks; ("", 9) when there is neither.
     */
    method AiCheck() returns (direction: string, index: nat)
      requires Valid()
      ensures (direction, index) == Focus(AiTarget(grid))
    {
      RunningSumsAreLineSums();
      assert rowSum.Length == 3 && colSum.Length == 3 && diagSum.Length == 2;
      var offenseDirection, offenseIndex, defenseDirection, defenseIndex := "", 9, "", 9;
      offenseDirection, offenseIndex, defenseDirection, defenseIndex :=
        ScanLines(grid, rowSum, 0, "row", offenseDirection, offenseIndex, defenseDirection, defenseIndex);
      offenseDirection, offenseIndex, defenseDirection, defenseIndex :=
        ScanLines(grid, colSum, 3, "col", offenseDirection, offenseIndex, defenseDirection, defenseIndex);
      offenseDirection, offenseIndex, defenseDirection, defenseIndex :=
        ScanLines(grid, diagSum, 6, "diag", offenseDirection, offenseIndex, defenseDirection, defenseIndex);
      AiTargetFocus(grid);
      if offenseDirection != "" {
        direction, index := offenseDirection, offenseIndex;
      } else if defenseDirection != "" {
        direction, index := defenseDirection, defenseIndex;
      } else {
        direction, index := "", 9;
      }
    }

    /**
     * One of the three scans of the opponent's line search: the lines
     * first, first + 1, ... named `name` 0, 1, ..., whose running sums are
     * `sums`; a sum of -2 records the line as the offence target, else a
     * sum of 2 as the defence target, each time overwriting the earlier one.
     */
    static method ScanLines(ghost g: Grid, sums: array<int>, first: nat, name: string,
                            offenseDirection: string, offenseIndex: nat,
                            defenseDirection: string, defenseIndex: nat)
      returns (offenseDirection': string, offenseIndex': nat, defenseDirection': string, defenseIndex': nat)
      requires IsGrid(g)
      requires (first, sums.Length, name) in {(0, 3, "row"), (3, 3, "col"), (6, 2, "diag")}
      requires forall i :: 0 <= i < sums.Length ==> sums[i] == LineSum(g, first + i)
      requires (offenseDirection, offenseIndex) == Focus(LastLineWithSum(g, -2, first))
      requires (defenseDirection, defenseIndex) == Focus(LastLineWithSum(g, 2, first))
      ensures (offenseDirection', offenseIndex') == Focus(LastLineWithSum(g, -2, first + sums.Length))
      ensures (defenseDirection', defenseIndex') == Focus(LastLineWithSum(g, 2, first + sums.Length))
    {
      offenseDirection', offenseIndex', defenseDirection', defenseIndex' :=
        offenseDirection, offenseIndex, defenseDirection, defenseIndex;
      for i := 0 to sums.Length
        invariant (offenseDirection', offenseIndex') == Focus(LastLineWithSum(g, -2, first + i))
        invariant (defenseDirection', defenseIndex') == Focus(LastLineWithSum(g, 2, first + i))
      {
        LastLineStep(g, first + i);
        if sums[i] == -2 {
          offenseIndex', offenseDirection' := i, name;
        } else if sums[i] == 2 {
          defenseIndex', defenseDirection' := i, name;
        }
      }
    }

    /**
     * The opponent's move: the first free cell, in row-major order, of the
     * line it aims at, if it aims at one; otherwise any free cell, chosen
     * at random.
     */
    method AiMove() returns (row: nat, col: nat)
      requires Valid() && !Full(grid)
      ensures row < 3 && col < 3 && grid[row][col] == 0
      ensures AiTarget(grid).Some? ==> OnLine(AiTarget(grid).value, row, col)
    {
      var freeSpots := FreeSpots();
      var focusDirection, focusIndex := AiCheck();
      if focusDirection != "" {
        for t := 0 to |freeSpots|
          invariant forall u :: 0 <= u < t ==> !Targets(focusDirection, focusIndex, freeSpots[u].0, freeSpots[u].1)
        {
          var (r, c) := freeSpots[t];
          if Targets(focusDirection, focusIndex, r, c) {
            TargetsIsOnLine(AiTarget(grid).value, r, c);
            return r, c;
          }
        }
        TargetLineHasFreeSpot(grid, freeSpots);
        assert false;
      }
      FreeSpotsExist(grid);
      var t :| 0 <= t < |freeSpots|;
      row, col := freeSpots[t].0, freeSpots[t].1;
    }

    /** The free cells of the board in row-major order. */
    method FreeSpots() returns (freeSpots: seq<(nat, nat)>)
      requires Valid()
      ensures freeSpots == FreeSpotsBefore(grid, 9)
      ensures forall u :: 0 <= u < |freeSpots| ==> freeSpots[u].0 < 3 && freeSpots[u].1 < 3 && grid[freeSpots[u].0][freeSpots[u].1] == 0
    {
      freeSpots := [];
      for i := 0 to 3
        invariant freeSpots == FreeSpotsBefore(grid, 3 * i)
      {
        for j := 0 to 3
          invariant freeSpots == FreeSpotsBefore(grid, 3 * i + j)
        {
          FreeSpotsStep(grid, i, j);
          if board[i, j] == 0 {
            freeSpots := freeSpots + [(i, j)];
          }
        }
      }
      FreeSpotsMembers(grid, 9);
      assert forall u :: 0 <= u < |freeSpots| ==> freeSpots[u] in freeSpots;
    }
  }
}
