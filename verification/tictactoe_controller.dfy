/**
 * The terminal controller around the earlier tic-tac-toe engine: it turns a
 * typed spot number into a cell, plays one validated move (mark, check,
 * switch seats), starts a round in the chosen mode and keeps the two
 * players' scores. The menus, the drawing and the input loops are not part
 * of this model.
 */
module TicTacToeController {
  import opened Wrappers
  import opened Board
  import opened TicTacToe
  import opened OldTicTacToe

  // ---------------------------------------------------------------------
  // Spot numbers
  // ---------------------------------------------------------------------

  /** A platform `usize` holds values below 2^64. */
  const UsizeLimit: nat := 0x1_0000_0000_0000_0000

  predicate IsDigit(ch: char) {
    '0' <= ch <= '9'
  }

  predicate AllDigits(s: string) {
    forall i :: 0 <= i < |s| ==> IsDigit(s[i])
  }

  /** The value of a string of decimal digits, most significant first. */
  function DigitsValue(s: string): nat
    requires AllDigits(s)
  {
    if |s| == 0 then 0
    else DigitsValue(s[..|s| - 1]) * 10 + (s[|s| - 1] as int - '0' as int)
  }

  /**
   * Parsing an unsigned machine integer: an optional '+' and then at least
   * one decimal digit, with a value that fits; anything else is an error.
   */
  function ParseUsize(s: string): (n: Option<nat>)
    ensures n.Some? ==> n.value < UsizeLimit
    ensures n.Some? ==> |s| > 0 && (AllDigits(s) || (s[0] == '+' && |s| > 1 && AllDigits(s[1..])))
    ensures n.None? && |s| > 0 && AllDigits(s) ==> DigitsValue(s) >= UsizeLimit
    ensures n.Some? ==> n.value == DigitsValue(if s[0] == '+' then s[1..] else s)
  {
    var digits := if |s| > 0 && s[0] == '+' then s[1..] else s;
    if |digits| == 0 || !AllDigits(digits) then None
    else if DigitsValue(digits) >= UsizeLimit then None
    else Some(DigitsValue(digits))
  }

  /** The decimal numeral of n, without leading zeros. */
  function Decimal(n: nat): (s: string)
    ensures |s| > 0 && AllDigits(s)
    decreases n
  {
    var last := [('0' as int + n % 10) as char];
    if n < 10 then last else Decimal(n / 10) + last
  }

  /** The value of a numeral is the number it was written for. */
  lemma {:induction false} DecimalValue(n: nat)
    ensures DigitsValue(Decimal(n)) == n
    decreases n
  {
    var s := Decimal(n);
    assert s[..|s| - 1] == (if n < 10 then [] else Decimal(n / 10));
    if n >= 10 {
      DecimalValue(n / 10);
    }
  }

  /** Every number that fits in a `usize` parses back from its numeral. */
  lemma ParseDecimal(n: nat)
    requires n < UsizeLimit
    ensures ParseUsize(Decimal(n)) == Some(n)
  {
    DecimalValue(n);
  }

  /**
   * The cell a typed spot number names: spots 0 to 8 number the cells row
   * by row; a larger number or text that is not a number names none.
   */
  function CliSpotToIndex(spot: string): (cell: Option<(nat, nat)>)
    ensures cell.Some? <==> ParseUsize(spot).Some? && ParseUsize(spot).value <= 8
    ensures cell.Some? ==>
      cell.value.0 < 3 && cell.value.1 < 3 && 3 * cell.value.0 + cell.value.1 == ParseUsize(spot).value
  {
    match ParseUsize(spot)
    case Some(num) => if num <= 8 then Some((num / 3, num % 3)) else None
    case None => None
  }

  /** Each cell has its spot number, and typing it names that cell. */
  lemma SpotNumberRoundTrip(row: nat, col: nat)
    requires row < 3 && col < 3
    ensures CliSpotToIndex(Decimal(3 * row + col)) == Some((row, col))
  {
    var n := 3 * row + col;
    ParseDecimal(n);
    RowMajorDivMod(row, col);
  }

  /** Two inputs naming the same cell carry the same number. */
  lemma SpotNumberInjective(a: string, b: string)
    requires CliSpotToIndex(a).Some? && CliSpotToIndex(a) == CliSpotToIndex(b)
    ensures ParseUsize(a) == ParseUsize(b)
  {
  }

  // ---------------------------------------------------------------------
  // Scores
  // ---------------------------------------------------------------------

  /** A score is an unsigned 32-bit counter; an increment past the top wraps to zero. */
  const U32Modulus: nat := 0x1_0000_0000

  function ScoreAfter(score: nat, seat: nat, winner: GameWinner): (s: nat)
    requires score < U32Modulus
    ensures s < U32Modulus
  {
    if (seat == 0 && winner == GameWinner.Player1) || (seat == 1 && winner == GameWinner.Player2)
    then (score + 1) % U32Modulus
    else score
  }

  /**
   * Below the wrap, a decided round adds exactly one to the total of the
   * two scores, on the winner's side; a tie or an unfinished round adds
   * nothing.
   */
  lemma RoundScoresOnce(s0: nat, s1: nat, winner: GameWinner)
    requires s0 + 1 < U32Modulus && s1 + 1 < U32Modulus
    ensures ScoreAfter(s0, 0, winner) + ScoreAfter(s1, 1, winner) ==
      s0 + s1 + (if winner == GameWinner.Player1 || winner == GameWinner.Player2 then 1 else 0)
    ensures ScoreAfter(s0, 0, winner) > s0 <==> winner == GameWinner.Player1
    ensures ScoreAfter(s1, 1, winner) > s1 <==> winner == GameWinner.Player2
  {
  }

  // ---------------------------------------------------------------------
  // The controller
  // ---------------------------------------------------------------------

  class Controller {
    var name: string
    const scores: array<nat>
    var controllerRunning: bool
    var gameMode: GameMode

    ghost predicate Valid()
      reads this, scores
    {
      scores.Length == 2 && scores[0] < U32Modulus && scores[1] < U32Modulus
    }

    /** A controller with no rounds played, running, in player-against-computer mode. */
    constructor ()
      ensures Valid() && fresh(scores)
      ensures name == "Rust TTT Controller" && scores[..] == [0, 0]
      ensures controllerRunning && gameMode == PvAI
    {
      name := "Rust TTT Controller";
      scores := new nat[2](_ => 0);
      controllerRunning := true;
      gameMode := PvAI;
    }

    /**
     * Plays one move on `game`. A free cell on the board is marked for the
     * seat to move and the lines through it are checked; the seats switch
     * only while the game goes on. Any other cell leaves the game as it was.
     * On a board where no line was decided, the outcome is the one the full
     * scan of all eight lines gives.
     */
    method TakeTurn(game: TicTacToeGame, row: nat, col: nat)
      requires game.Valid()
      modifies game.board, game.rowSum, game.colSum, game.diagSum
      modifies game`turnCounter, game`grid, game`winner, game`gameState, game`whosTurn
      ensures game.Valid()
      ensures !(row < 3 && col < 3 && old(game.grid)[row][col] == 0) ==>
        game.grid == old(game.grid) && game.turnCounter == old(game.turnCounter)
        && game.winner == old(game.winner) && game.gameState == old(game.gameState)
        && game.whosTurn == old(game.whosTurn)
      ensures row < 3 && col < 3 && old(game.grid)[row][col] == 0 ==>
        var mover := old(game.whosTurn);
        game.grid == SetCell(old(game.grid), row, col, MarkValue(mover))
        && game.turnCounter == old(game.turnCounter) + 1
        && (CompletesLine(game.grid, row, col, mover) ==>
              game.winner == WinnerFor(mover) && game.gameState == GameOver && game.whosTurn == mover)
        && (!CompletesLine(game.grid, row, col, mover) && game.turnCounter == 9 ==>
              game.winner == GameWinner.Tie && game.gameState == GameOver && game.whosTurn == mover)
        && (!CompletesLine(game.grid, row, col, mover) && game.turnCounter < 9 ==>
              game.winner == old(game.winner) && game.gameState == old(game.gameState)
              && game.whosTurn == Opponent(mover))
      ensures (row < 3 && col < 3 && old(game.grid)[row][col] == 0
               && forall k :: 0 <= k < 8 ==> !IsDecided(old(game.grid), k)) ==>
        game.winner == CheckedWinner(game.grid, old(game.winner))
    {
      if game.ValidateChoice(row, col) {
        if forall k :: 0 <= k < 8 ==> !IsDecided(game.grid, k) {
          WinCheckAgreesWithFullScan(game.grid, row, col, game.whosTurn, game.winner);
        }
        PlayFreeCell(game, row, col);
      }
    }

    /** The move on a free cell: mark it, check the lines through it, and pass the turn while the game goes on. */
    method PlayFreeCell(game: TicTacToeGame, row: nat, col: nat)
      requires game.Valid() && row < 3 && col < 3 && game.grid[row][col] == 0
      modifies game.board, game.rowSum, game.colSum, game.diagSum
      modifies game`turnCounter, game`grid, game`winner, game`gameState, game`whosTurn
      ensures game.Valid()
      ensures var mover := old(game.whosTurn);
        game.grid == SetCell(old(game.grid), row, col, MarkValue(mover))
        && game.turnCounter == old(game.turnCounter) + 1
        && (CompletesLine(game.grid, row, col, mover) ==>
              game.winner == WinnerFor(mover) && game.gameState == GameOver && game.whosTurn == mover)
        && (!CompletesLine(game.grid, row, col, mover) && game.turnCounter == 9 ==>
              game.winner == GameWinner.Tie && game.gameState == GameOver && game.whosTurn == mover)
        && (!CompletesLine(game.grid, row, col, mover) && game.turnCounter < 9 ==>
              game.winner == old(game.winner) && game.gameState == old(game.gameState)
              && game.whosTurn == Opponent(mover))
    {
      game.MarkSpot(row, col);
      var gameStatus := game.WinCheck(row, col);
      if gameStatus == 0 {
        game.NextTurn();
      }
    }

    /** A fresh game in the controller's mode, already in play. */
    method NewGame() returns (game: TicTacToeGame)
      ensures fresh(game) && fresh(game.board) && fresh(game.rowSum) && fresh(game.colSum) && fresh(game.diagSum)
      ensures game.Valid() && game.grid == EmptyGrid && game.turnCounter == 0
      ensures game.gameMode == gameMode && game.gameState == Playing
      ensures game.whosTurn == Player.Player1 && game.winner == GameWinner.Pending
    {
      game := new TicTacToeGame(gameMode);
      game.gameState := Playing;
    }

    /** After a round, the winner's score goes up by one; a tie or an unfinished round scores nothing. */
    method RecordRoundResult(winner: GameWinner)
      requires Valid()
      modifies scores
      ensures Valid()
      ensures scores[0] == ScoreAfter(old(scores[0]), 0, winner)
      ensures scores[1] == ScoreAfter(old(scores[1]), 1, winner)
    {
      match winner
      case Player1 => scores[0] := (scores[0] + 1) % U32Modulus;
      case Player2 => scores[1] := (scores[1] + 1) % U32Modulus;
      case _ =>
    }
  }
}
