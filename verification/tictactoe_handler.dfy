/**
 * The tic-tac-toe message handler: it finds the room's game, parses a cell
 * label such as "B2", makes the move for the seat whose turn it is, checks
 * for a winner and answers with the board, the seat to move and a status.
 */
module TicTacToeHandler {
  import opened Wrappers
  import opened Board
  import opened TicTacToe
  import opened Rooms

  datatype TicTacToePayloadToClient = TicTacToePayloadToClient(board: seq<string>, whosTurn: string, status: string)

  /** The reply to a message for a room that does not exist or hosts another game. */
  const ErrorPayload: TicTacToePayloadToClient :=
    TicTacToePayloadToClient(["", "", "", "", "", "", "", "", ""], "n/a", "error")

  // ---------------------------------------------------------------------
  // Parsing and formatting
  // ---------------------------------------------------------------------

  /** Upper-casing of ASCII letters; every other character is kept. */
  function UpperChar(ch: char): char {
    if 'a' <= ch <= 'z' then (ch as int - 32) as char else ch
  }

  function Upper(s: string): (u: string)
    ensures |u| == |s|
    ensures forall i :: 0 <= i < |s| ==> u[i] == UpperChar(s[i])
  {
    if s == [] then [] else [UpperChar(s[0])] + Upper(s[1..])
  }

  function RowOf(ch: char): (r: Option<nat>)
    ensures r.Some? ==> r.value < 3 && ch == ('A' as int + r.value) as char
  {
    if ch == 'A' then Some(0) else if ch == 'B' then Some(1) else if ch == 'C' then Some(2) else None
  }

  function ColOf(ch: char): (c: Option<nat>)
    ensures c.Some? ==> c.value < 3 && ch == ('1' as int + c.value) as char
  {
    if ch == '1' then Some(0) else if ch == '2' then Some(1) else if ch == '3' then Some(2) else None
  }

  /** The label of a cell: its row letter A to C followed by its column digit 1 to 3. */
  function Label(row: nat, col: nat): string
    requires row < 3 && col < 3
  {
    [('A' as int + row) as char, ('1' as int + col) as char]
  }

  /** The cell a label names, in either case; anything else is no cell. */
  function ParseChoice(choice: string): (rc: Option<(nat, nat)>)
    ensures rc.Some? ==> rc.value.0 < 3 && rc.value.1 < 3 && Upper(choice) == Label(rc.value.0, rc.value.1)
  {
    var u := Upper(choice);
    if |u| == 2 && RowOf(u[0]).Some? && ColOf(u[1]).Some? then Some((RowOf(u[0]).value, ColOf(u[1]).value))
    else None
  }

  /** Each of the nine labels parses to its cell, in upper and in lower case. */
  lemma ParseChoiceLabel(row: nat, col: nat)
    requires row < 3 && col < 3
    ensures ParseChoice(Label(row, col)) == Some((row, col))
    ensures ParseChoice([('a' as int + row) as char, ('1' as int + col) as char]) == Some((row, col))
  {
    var lower := [('a' as int + row) as char, ('1' as int + col) as char];
    assert Upper(lower) == Label(row, col);
    assert Upper(Label(row, col)) == Label(row, col);
  }

  /** Two choices that name a cell name the same cell only if they are the same label up to case. */
  lemma ParseChoiceInjective(a: string, b: string)
    requires ParseChoice(a).Some? && ParseChoice(a) == ParseChoice(b)
    ensures Upper(a) == Upper(b)
  {
  }

  function CellLabel(v: int): string {
    if v == 1 then "X" else if v == -1 then "O" else ""
  }

  function RowLabels(row: seq<int>): seq<string>
    requires |row| == 3
  {
    [CellLabel(row[0]), CellLabel(row[1]), CellLabel(row[2])]
  }

  /** The board as nine labels, row by row. */
  function SerializeBoard(g: Grid): (cells: seq<string>)
    requires IsGrid(g)
    ensures |cells| == 9
    ensures forall r, c :: 0 <= r < 3 && 0 <= c < 3 ==> cells[3 * r + c] == CellLabel(g[r][c])
  {
    RowLabels(g[0]) + RowLabels(g[1]) + RowLabels(g[2])
  }

  /** Distinct well-marked boards are sent as distinct label lists. */
  lemma SerializeBoardInjective(g: Grid, h: Grid)
    requires IsGrid(g) && IsGrid(h) && WellMarked(g) && WellMarked(h)
    requires SerializeBoard(g) == SerializeBoard(h)
    ensures g == h
  {
    forall r, c | 0 <= r < 3 && 0 <= c < 3
      ensures g[r][c] == h[r][c]
    {
      assert SerializeBoard(g)[3 * r + c] == SerializeBoard(h)[3 * r + c];
    }
    GridsEqual(g, h);
  }

  function FormatPlayer(p: Player): string {
    match p
    case Player1 => "x"
    case Player2 => "o"
  }

  function FormatStatus(winner: GameWinner, whosTurn: Player): string {
    match winner
    case Pending => if whosTurn == Player.Player1 then "next_x" else "next_o"
    case Player1 => "gameover_x"
    case Player2 => "gameover_o"
    case Tie => "gameover_tie"
  }

  /** The status tells the outcome exactly, and while the game runs, the seat to move. */
  lemma FormatStatusDistinguishes(w1: GameWinner, t1: Player, w2: GameWinner, t2: Player)
    ensures FormatStatus(w1, t1) == FormatStatus(w2, t2) <==> w1 == w2 && (w1 == GameWinner.Pending ==> t1 == t2)
  {
  }

  // ---------------------------------------------------------------------
  // A move, as a value
  // ---------------------------------------------------------------------

  datatype TttState = TttState(grid: Grid, turn: Player, winner: GameWinner)

  /** Mark the cell for the seat to move, check the winner and pass the turn while the game runs. */
  function AfterMove(s: TttState, row: nat, col: nat): TttState
    requires IsGrid(s.grid) && row < 3 && col < 3
  {
    var g := SetCell(s.grid, row, col, MarkValue(s.turn));
    var w := CheckedWinner(g, s.winner);
    TttState(g, if w == GameWinner.Pending then Opponent(s.turn) else s.turn, w)
  }

  /** X has moved as often as O when X is to move, once more when O is. */
  predicate Balanced(s: TttState)
    requires IsGrid(s.grid)
  {
    Total(s.grid) == if s.turn == Player.Player1 then 0 else 1
  }

  /**
   * A state a game played through the handler can reach: while pending no
   * line is decided and the marks are balanced; a tie is a full board with
   * no decided line; a win is a decided line, every decided line belongs to
   * the winner, and the winner's seat is still the one to move.
   */
  ghost predicate Consistent(s: TttState) {
    IsGrid(s.grid) && WellMarked(s.grid) &&
    match s.winner
    case Pending => (forall k :: 0 <= k < 8 ==> !IsDecided(s.grid, k)) && Balanced(s)
    case Tie => Full(s.grid) && forall k :: 0 <= k < 8 ==> !IsDecided(s.grid, k)
    case Player1 =>
      s.turn == Player.Player1 && (exists k :: 0 <= k < 8 && IsDecided(s.grid, k))
      && forall k :: 0 <= k < 8 && IsDecided(s.grid, k) ==> LineSum(s.grid, k) == 3
    case Player2 =>
      s.turn == Player.Player2 && (exists k :: 0 <= k < 8 && IsDecided(s.grid, k))
      && forall k :: 0 <= k < 8 && IsDecided(s.grid, k) ==> LineSum(s.grid, k) == -3
  }

  lemma NewGameConsistent()
    ensures Consistent(TttState(EmptyGrid, Player.Player1, GameWinner.Pending))
  {
    var s := TttState(EmptyGrid, Player.Player1, GameWinner.Pending);
    forall k | 0 <= k < 8
      ensures !IsDecided(s.grid, k)
    {
      assert LineSum(s.grid, k) == 0;
    }
  }

  /** A move on an empty cell keeps the state consistent, and a decided outcome never changes. */
  lemma MovePreservesConsistent(s: TttState, row: nat, col: nat)
    requires Consistent(s) && row < 3 && col < 3 && s.grid[row][col] == 0
    ensures Consistent(AfterMove(s, row, col))
    ensures s.winner != GameWinner.Pending ==> AfterMove(s, row, col).winner == s.winner
  {
    MarkedLines(s.grid, row, col, MarkValue(s.turn));
    WellMarkedAfterSet(s.grid, row, col, MarkValue(s.turn));
    if s.winner == GameWinner.Pending {
      PendingMoveConsistent(s, row, col);
    } else if s.winner != GameWinner.Tie {
      DecidedMoveConsistent(s, row, col);
    }
  }

  /** A decided line keeps its sum after a mark, and a line the mark decides sums to three of it. */
  lemma MarkedLines(g: Grid, row: nat, col: nat, v: int)
    requires IsGrid(g) && WellMarked(g) && row < 3 && col < 3 && g[row][col] == 0 && (v == 1 || v == -1)
    ensures forall k :: 0 <= k < 8 && IsDecided(g, k) ==> LineSum(SetCell(g, row, col, v), k) == LineSum(g, k)
    ensures forall k :: 0 <= k < 8 && !IsDecided(g, k) && IsDecided(SetCell(g, row, col, v), k) ==>
      LineSum(SetCell(g, row, col, v), k) == 3 * v
  {
    forall k | 0 <= k < 8 {
      LineAfterMark(g, row, col, v, k);
    }
  }

  lemma PendingMoveConsistent(s: TttState, row: nat, col: nat)
    requires Consistent(s) && s.winner == GameWinner.Pending && row < 3 && col < 3 && s.grid[row][col] == 0
    requires WellMarked(SetCell(s.grid, row, col, MarkValue(s.turn)))
    requires forall k :: 0 <= k < 8 && IsDecided(SetCell(s.grid, row, col, MarkValue(s.turn)), k) ==>
      LineSum(SetCell(s.grid, row, col, MarkValue(s.turn)), k) == 3 * MarkValue(s.turn)
    ensures Consistent(AfterMove(s, row, col))
  {
    var v := MarkValue(s.turn);
    var g' := SetCell(s.grid, row, col, v);
    var t := AfterMove(s, row, col);
    assert t.grid == g';
    match FirstDecidedLine(g', 0)
    case Some(j) =>
      assert LineSum(g', j) == 3 * v;
      assert t.winner == (if v == 1 then GameWinner.Player1 else GameWinner.Player2) && t.turn == s.turn;
    case None =>
      if Full(g') {
        assert t.winner == GameWinner.Tie;
      } else {
        TotalAfterSet(s.grid, row, col, v);
        assert t.winner == GameWinner.Pending && t.turn == Opponent(s.turn);
      }
  }

  lemma DecidedMoveConsistent(s: TttState, row: nat, col: nat)
    requires Consistent(s) && (s.winner == GameWinner.Player1 || s.winner == GameWinner.Player2)
    requires row < 3 && col < 3 && s.grid[row][col] == 0
    requires WellMarked(SetCell(s.grid, row, col, MarkValue(s.turn)))
    requires forall k :: 0 <= k < 8 && IsDecided(s.grid, k) ==>
      LineSum(SetCell(s.grid, row, col, MarkValue(s.turn)), k) == LineSum(s.grid, k)
    requires forall k :: 0 <= k < 8 && !IsDecided(s.grid, k) && IsDecided(SetCell(s.grid, row, col, MarkValue(s.turn)), k) ==>
      LineSum(SetCell(s.grid, row, col, MarkValue(s.turn)), k) == 3 * MarkValue(s.turn)
    ensures Consistent(AfterMove(s, row, col)) && AfterMove(s, row, col).winner == s.winner
  {
    var g' := SetCell(s.grid, row, col, MarkValue(s.turn));
    var t := AfterMove(s, row, col);
    assert t.grid == g';
    var k :| 0 <= k < 8 && IsDecided(s.grid, k);
    assert IsDecided(g', k);
    var j := FirstDecidedLine(g', 0).value;
    if IsDecided(s.grid, j) {
      assert LineSum(g', j) == LineSum(s.grid, j);
    } else {
      assert LineSum(g', j) == 3 * MarkValue(s.turn);
    }
    assert t.winner == s.winner && t.turn == s.turn;
  }

  /** Every accepted move fills one more cell, so a game takes at most nine moves. */
  lemma MoveFillsOneCell(s: TttState, row: nat, col: nat)
    requires IsGrid(s.grid) && row < 3 && col < 3 && s.grid[row][col] == 0
    ensures MarkedCount(AfterMove(s, row, col).grid) == MarkedCount(s.grid) + 1
  {
    MarkedCountAfterSet(s.grid, row, col, MarkValue(s.turn));
  }

  /** The move that fills the board ends the game. */
  lemma LastMoveEndsGame(s: TttState, row: nat, col: nat)
    requires IsGrid(s.grid) && row < 3 && col < 3 && s.grid[row][col] == 0
    requires MarkedCount(s.grid) == 8
    ensures AfterMove(s, row, col).winner != GameWinner.Pending
  {
    MoveFillsOneCell(s, row, col);
  }

  // ---------------------------------------------------------------------
  // The handler
  // ---------------------------------------------------------------------

  function TttGameOf(rooms: map<string, GameRoom>, id: string): Option<TicTacToeModel> {
    if id in rooms && rooms[id].game.TicTacToeGame? then Some(rooms[id].game.ttt) else None
  }

  function TttFrame(rooms: map<string, GameRoom>, id: string): set<object> {
    if TttGameOf(rooms, id).Some? then {TttGameOf(rooms, id).value, TttGameOf(rooms, id).value.board} else {}
  }

  function StateOf(m: TicTacToeModel): TttState
    requires m.Shaped()
    reads m, m.board
  {
    TttState(m.Cells(), m.whosTurn, m.winner)
  }

  function Reply(m: TicTacToeModel, status: string): TicTacToePayloadToClient
    requires m.Shaped()
    reads m, m.board
  {
    TicTacToePayloadToClient(SerializeBoard(m.Cells()), FormatPlayer(m.whosTurn), status)
  }

  /**
   * Handles one tic-tac-toe message for room `gameId`. A missing room or
   * one hosting another game gets the error reply. A label that names no
   * cell, or names a marked one, changes nothing and says so. Otherwise
   * the seat to move marks the cell, the winner is checked, and the turn
   * passes while the game is still pending.
   */
  method HandleTicTacToe(choice: string, rooms: map<string, GameRoom>, gameId: string) returns (msg: TicTacToePayloadToClient)
    requires TttGameOf(rooms, gameId).Some? ==> TttGameOf(rooms, gameId).value.Valid()
    modifies TttFrame(rooms, gameId)
    ensures TttGameOf(rooms, gameId).None? ==> msg == ErrorPayload
    ensures TttGameOf(rooms, gameId).Some? ==>
      var m := TttGameOf(rooms, gameId).value;
      m.player1Name == old(m.player1Name) && m.player2Name == old(m.player2Name)
    ensures TttGameOf(rooms, gameId).Some? ==>
      var m := TttGameOf(rooms, gameId).value;
      m.Valid() &&
      match ParseChoice(choice)
      case None => StateOf(m) == old(StateOf(m)) && msg == Reply(m, "invalid_choice")
      case Some(rc) =>
        if old(m.Cells())[rc.0][rc.1] != 0 then StateOf(m) == old(StateOf(m)) && msg == Reply(m, "invalid_move")
        else StateOf(m) == AfterMove(old(StateOf(m)), rc.0, rc.1) && msg == Reply(m, FormatStatus(m.winner, m.whosTurn))
  {
    var g := TttGameOf(rooms, gameId);
    if g.None? {
      return ErrorPayload;
    }
    var m := g.value;
    var rc := ParseChoice(choice);
    if rc.None? {
      return Reply(m, "invalid_choice");
    }
    var (row, col) := rc.value;
    if !m.ValidateChoice(row, col) {
      return Reply(m, "invalid_move");
    }
    PlayMove(m, row, col);
    msg := Reply(m, FormatStatus(m.winner, m.whosTurn));
  }

  /**
   * An accepted move on the game object: the seat to move marks the cell,
   * the winner is checked, and the turn passes while the game is pending.
   * Only the board, the turn and the winner may change.
   */
  method PlayMove(m: TicTacToeModel, row: nat, col: nat)
    requires m.Valid() && row < 3 && col < 3
    modifies m.board, m`whosTurn, m`winner
    ensures m.Valid()
    ensures StateOf(m) == AfterMove(old(StateOf(m)), row, col)
  {
    m.MarkSpot(row, col);
    m.CheckWinner();
    if m.winner == GameWinner.Pending {
      m.NextTurn();
    }
  }
}
