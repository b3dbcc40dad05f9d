/**
 * The grid-game engine used by the network handler: a 3x3 board of signed
 * marks, the seat to move, the winner so far and the two seat names.
 */
module TicTacToe {
  import opened Wrappers
  import opened Board

  datatype Player = Player1 | Player2

  datatype GameWinner = Pending | Player1 | Player2 | Tie

  /** The value a seat writes into a cell: 1 for Player1, -1 for Player2. */
  function MarkValue(p: Player): (v: int)
    ensures v == 1 || v == -1
    ensures v == 1 <==> p == Player.Player1
  {
    if p == Player.Player1 then 1 else -1
  }

  /** The other seat; there are two seats, so this swaps them. */
  function Opponent(p: Player): (q: Player)
    ensures q != p
  {
    match p
    case Player1 => Player.Player2
    case Player2 => Player.Player1
  }

  /** Swapping seats twice gives back the seat. */
  lemma OpponentInvolution(p: Player)
    ensures Opponent(Opponent(p)) == p
  {
  }

  /** The first line of the table, from index k on, whose sum is 3 or -3. */
  function FirstDecidedLine(g: Grid, k: nat): (j: Option<nat>)
    requires IsGrid(g) && k <= 8
    ensures j.Some? ==> k <= j.value < 8 && IsDecided(g, j.value)
    ensures j.Some? ==> forall i :: k <= i < j.value ==> !IsDecided(g, i)
    ensures j.None? ==> forall i :: k <= i < 8 ==> !IsDecided(g, i)
    decreases 8 - k
  {
    if k == 8 then None
    else if IsDecided(g, k) then Some(k)
    else FirstDecidedLine(g, k + 1)
  }

  /**
   * The winner after a check of board g when the winner was `prev`: the
   * first decided line in rows, columns, diagonals order names the winner
   * by its sign; with no decided line a full board is a tie; otherwise
   * the winner is left as it was.
   */
  function CheckedWinner(g: Grid, prev: GameWinner): (w: GameWinner)
    requires IsGrid(g)
    ensures w == GameWinner.Player1 && prev != GameWinner.Player1 ==>
      exists k :: 0 <= k < 8 && LineSum(g, k) == 3 && forall i :: 0 <= i < k ==> !IsDecided(g, i)
    ensures w == GameWinner.Player2 && prev != GameWinner.Player2 ==>
      exists k :: 0 <= k < 8 && LineSum(g, k) == -3 && forall i :: 0 <= i < k ==> !IsDecided(g, i)
    ensures w == GameWinner.Tie && prev != GameWinner.Tie ==>
      Full(g) && forall k :: 0 <= k < 8 ==> !IsDecided(g, k)
    ensures (exists k :: 0 <= k < 8 && IsDecided(g, k)) ==> w == GameWinner.Player1 || w == GameWinner.Player2
    ensures (forall k :: 0 <= k < 8 ==> !IsDecided(g, k)) && !Full(g) ==> w == prev
    ensures (forall k :: 0 <= k < 8 ==> !IsDecided(g, k)) && Full(g) ==> w == GameWinner.Tie
    ensures (exists k :: 0 <= k < 8 && IsDecided(g, k)) ==>
      (w == GameWinner.Player1 <==> exists k :: 0 <= k < 8 && LineSum(g, k) == 3 && forall i :: 0 <= i < k ==> !IsDecided(g, i))
    ensures (exists k :: 0 <= k < 8 && IsDecided(g, k)) ==>
      (w == GameWinner.Player2 <==> exists k :: 0 <= k < 8 && LineSum(g, k) == -3 && forall i :: 0 <= i < k ==> !IsDecided(g, i))
  {
    match FirstDecidedLine(g, 0)
    case Some(k) => if LineSum(g, k) == 3 then GameWinner.Player1 else GameWinner.Player2
    case None => if Full(g) then GameWinner.Tie else prev
  }

  class TicTacToeModel {
    const board: array2<int>
    var whosTurn: Player
    var winner: GameWinner
    var player1Name: Option<string>
    var player2Name: Option<string>

    predicate Shaped() {
      board.Length0 == 3 && board.Length1 == 3
    }

    /** The board as a value. */
    function Cells(): (g: Grid)
      requires Shaped()
      reads board
      ensures IsGrid(g)
      ensures forall r, c :: 0 <= r < 3 && 0 <= c < 3 ==> g[r][c] == board[r, c]
    {
      GridOf(board)
    }

    /** The board is 3x3 and holds only 1, 0 and -1. */
    ghost predicate Valid()
      reads this, board
    {
      Shaped() && WellMarked(Cells())
    }

    constructor ()
      ensures Valid() && fresh(board)
      ensures Cells() == EmptyGrid
      ensures whosTurn == Player.Player1 && winner == GameWinner.Pending
      ensures player1Name == None && player2Name == None
    {
      board := new int[3, 3]((r, c) => 0);
      whosTurn := Player.Player1;
      winner := GameWinner.Pending;
      player1Name := None;
      player2Name := None;
    }

    /** Seats the name in the first free seat, player1 before player2. */
    method AssignPlayer(name: string) returns (p: Option<Player>)
      modifies this`player1Name, this`player2Name
      ensures old(player1Name).None? ==>
        p == Some(Player.Player1) && player1Name == Some(name) && player2Name == old(player2Name)
      ensures old(player1Name).Some? && old(player2Name).None? ==>
        p == Some(Player.Player2) && player1Name == old(player1Name) && player2Name == Some(name)
      ensures old(player1Name).Some? && old(player2Name).Some? ==>
        p == None && player1Name == old(player1Name) && player2Name == old(player2Name)
      ensures p.Some? ==> GetPlayerFromName(name).Some?
    {
      if player1Name.None? {
        player1Name := Some(name);
        p := Some(Player.Player1);
      } else if player2Name.None? {
        player2Name := Some(name);
        p := Some(Player.Player2);
      } else {
        p := None;
      }
    }

    /** The seat held by the name, checking player1 first. */
    function GetPlayerFromName(name: string): (p: Option<Player>)
      reads this
      ensures p == Some(Player.Player1) <==> player1Name == Some(name)
      ensures p == Some(Player.Player2) <==> player1Name != Some(name) && player2Name == Some(name)
      ensures p == None <==> player1Name != Some(name) && player2Name != Some(name)
    {
      if player1Name == Some(name) then Some(Player.Player1)
      else if player2Name == Some(name) then Some(Player.Player2)
      else None
    }

    /** The name seated at p, if any. */
    function SeatName(p: Player): Option<string>
      reads this
    {
      match p
      case Player1 => player1Name
      case Player2 => player2Name
    }

    /** The name of the seat to move; it names that seat back. */
    function CurrentPlayerName(): (n: Option<string>)
      reads this
      ensures n == SeatName(whosTurn)
      ensures n.Some? ==> GetPlayerFromName(n.value).Some?
      ensures n.Some? && player1Name != player2Name ==> GetPlayerFromName(n.value) == Some(whosTurn)
    {
      match whosTurn
      case Player1 => player1Name
      case Player2 => player2Name
    }

    /** The winning seat's name; None while Pending and on a tie. */
    function WinnerName(): (n: Option<string>)
      reads this
      ensures winner == GameWinner.Pending || winner == GameWinner.Tie ==> n == None
      ensures winner == GameWinner.Player1 ==> n == player1Name
      ensures winner == GameWinner.Player2 ==> n == player2Name
    {
      match winner
      case Player1 => player1Name
      case Player2 => player2Name
      case _ => None
    }

    /** A move is allowed exactly on an empty cell; the caller keeps row and col on the board. */
    function ValidateChoice(row: nat, col: nat): (ok: bool)
      requires Valid() && row < 3 && col < 3
      reads this, board
      ensures ok <==> Cells()[row][col] == 0
    {
      board[row, col] == 0
    }

    /** Writes the mark of the seat to move into (row, col); nothing else changes. */
    method MarkSpot(row: nat, col: nat)
      requires Valid() && row < 3 && col < 3
      modifies board
      ensures Valid()
      ensures Cells() == SetCell(old(Cells()), row, col, MarkValue(whosTurn))
    {
      ghost var before := Cells();
      var v := if whosTurn == Player.Player1 then 1 else -1;
      board[row, col] := v;
      GridsEqual(Cells(), SetCell(before, row, col, MarkValue(whosTurn)));
    }

    /** Hands the move to the other seat. */
    method NextTurn()
      modifies this`whosTurn
      ensures whosTurn == Opponent(old(whosTurn))
    {
      whosTurn := match whosTurn
        case Player1 => Player.Player2
        case Player2 => Player.Player1;
    }

    /** Scans the line table and records a winner or a tie; the board does not change. */
    method CheckWinner()
      requires Valid()
      modifies this`winner
      ensures winner == CheckedWinner(Cells(), old(winner))
    {
      ghost var g := Cells();
      var k := 0;
      while k < 8
        invariant 0 <= k <= 8
        invariant FirstDecidedLine(g, 0) == FirstDecidedLine(g, k)
        invariant winner == old(winner)
      {
        var sum := LineTotal(k);
        if sum == 3 {
          winner := GameWinner.Player1;
          return;
        } else if sum == -3 {
          winner := GameWinner.Player2;
          return;
        }
        k := k + 1;
      }
      if IsFull() {
        winner := GameWinner.Tie;
      }
    }

    /** The sum of the board cells on line k. */
    function LineTotal(k: nat): (sum: int)
      requires Shaped() && k < 8
      reads board
      ensures sum == LineSum(Cells(), k)
    {
      var a, b, c := LineCell(k, 0), LineCell(k, 1), LineCell(k, 2);
      board[a.0, a.1] + board[b.0, b.1] + board[c.0, c.1]
    }

    /** No cell is empty. */
    function IsFull(): (full: bool)
      requires Shaped()
      reads board
      ensures full <==> Full(Cells())
    {
      forall r, c | 0 <= r < 3 && 0 <= c < 3 :: board[r, c] != 0
    }
  }
}
