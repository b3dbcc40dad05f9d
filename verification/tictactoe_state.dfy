/**
 * The tic-tac-toe state behind the shared game interface of the match
 * platform: the board with its running sums, the two marks X and O, the
 * seat holder ids, and the listeners to notify. Moves are not applied yet:
 * a move is refused once the game is over and otherwise accepted without
 * any change. Joining players are given a mark: the first joiner O, every
 * later one X.
 */
module TicTacToeGameLogic {
  import opened Wrappers
  import opened Board
  import Rooms
  import Platform

  datatype GameState = Playing | GameOver

  datatype PlayerMark = X | O

  datatype GameWinner = Pending | X | O | Tie

  /** The value a mark writes on the board. */
  function MarkValue(mark: PlayerMark): (v: int)
    ensures v == 1 || v == -1
    ensures v == 1 <==> mark == PlayerMark.X
  {
    match mark
    case X => 1
    case O => -1
  }

  /** The name a mark travels under in network messages. */
  function MarkName(mark: PlayerMark): (s: string)
    ensures s == "X" || s == "O"
  {
    match mark
    case X => "X"
    case O => "O"
  }

  /** Different marks have different names, and each name reads back as its mark. */
  lemma MarkNameInjective(a: PlayerMark, b: PlayerMark)
    ensures MarkName(a) == MarkName(b) <==> a == b
    ensures MarkName(a) == "X" <==> a == PlayerMark.X
  {
  }

  /** The mark the next joiner receives: O while no one holds O, else X. */
  function NextMark(playerOId: Option<string>): (mark: PlayerMark)
    ensures mark == PlayerMark.O <==> playerOId.None?
  {
    if playerOId.None? then PlayerMark.O else PlayerMark.X
  }

  /** The marks a run of joiners receive, in order, starting from the given O seat. */
  function MarksOfJoiners(playerOId: Option<string>, ids: seq<string>): (marks: seq<PlayerMark>)
    ensures |marks| == |ids|
    decreases |ids|
  {
    if |ids| == 0 then []
    else
      var mark := NextMark(playerOId);
      var seat := if mark == PlayerMark.O then Some(ids[0]) else playerOId;
      [mark] + MarksOfJoiners(seat, ids[1..])
  }

  /**
   * Starting with no O seat, the first joiner is given O and every later
   * joiner X, however many join; once O is taken, every joiner gets X.
   */
  lemma {:induction false} OnlyFirstJoinerIsO(playerOId: Option<string>, ids: seq<string>)
    ensures forall i :: 0 <= i < |ids| ==>
      (MarksOfJoiners(playerOId, ids)[i] == PlayerMark.O <==> (i == 0 && playerOId.None?))
    decreases |ids|
  {
    if |ids| > 0 {
      var seat := if playerOId.None? then Some(ids[0]) else playerOId;
      OnlyFirstJoinerIsO(seat, ids[1..]);
    }
  }

  class TicTacToeState {
    var gameState: GameState
    var winner: GameWinner
    var whosTurn: PlayerMark
    var turnCounter: nat
    const board: array2<int>
    const rowSum: array<int>
    const colSum: array<int>
    const diagSum: array<int>
    var playerXId: string
    var playerOId: Option<string>
    var listeners: map<string, Rooms.ChannelId>

    ghost predicate Valid()
      reads this
    {
      board.Length0 == 3 && board.Length1 == 3
      && rowSum.Length == 3 && colSum.Length == 3 && diagSum.Length == 2
    }

    function Cells(): (g: Grid)
      requires Valid()
      reads this, board
      ensures IsGrid(g)
    {
      GridOf(board)
    }

    /** A new game in play, X to move, with an empty board, the creator's id on X and no listeners. */
    constructor (playerXId: string)
      ensures Valid() && fresh(board) && fresh(rowSum) && fresh(colSum) && fresh(diagSum)
      ensures gameState == Playing && winner == GameWinner.Pending && whosTurn == PlayerMark.X
      ensures turnCounter == 0 && Cells() == EmptyGrid
      ensures rowSum[..] == [0, 0, 0] && colSum[..] == [0, 0, 0] && diagSum[..] == [0, 0]
      ensures this.playerXId == playerXId && playerOId == None && listeners == map[]
    {
      gameState := Playing;
      winner := GameWinner.Pending;
      whosTurn := PlayerMark.X;
      turnCounter := 0;
      board := new int[3, 3]((r, c) => 0);
      rowSum := new int[3](_ => 0);
      colSum := new int[3](_ => 0);
      diagSum := new int[2](_ => 0);
      this.playerXId := playerXId;
      playerOId := None;
      listeners := map[];
      new;
      assert Cells() == EmptyGrid;
    }

    /**
     * A move request: refused once the game is over; otherwise accepted,
     * with the board, the sums, the turn and everything else unchanged.
     */
    method MakeMove(playerId: string, moveData: string) returns (r: Result<Unit, string>)
      ensures r.Err? <==> IsFinished()
      ensures r.Err? ==> r.error == "Game is already over."
    {
      if gameState == GameOver {
        return Err("Game is already over.");
      }
      return Ok(Unit);
    }

    /** The state snapshot for a match, which reports that it is not available. */
    function GetState(matchId: string): (msg: Platform.ServerMsg)
      ensures msg.Error? && msg.code == "NOT_IMPLEMENTED"
      ensures |msg.message| == |matchId| + 37 && msg.message[16..16 + |matchId|] == matchId
    {
      Platform.Error("NOT_IMPLEMENTED", "State for match " + matchId + " not implemented yet.")
    }

    /**
     * Gives a joining player a mark: O, recording the player's id, while no
     * one holds O; X, with nothing recorded, afterwards. The id and the
     * display name are passed through.
     */
    method AssignPlayer(id: string, displayName: string) returns (p: Platform.Player)
      modifies this`playerOId
      ensures p.id == id && p.displayName == displayName
      ensures p.mark == MarkName(NextMark(old(playerOId)))
      ensures playerOId == if old(playerOId).None? then Some(id) else old(playerOId)
    {
      var mark: PlayerMark;
      if playerOId.None? {
        playerOId := Some(id);
        mark := PlayerMark.O;
      } else {
        mark := PlayerMark.X;
      }
      p := Platform.Player(id, displayName, MarkName(mark));
    }

    /** The game is finished exactly when it is no longer in play. */
    function IsFinished(): (finished: bool)
      reads this
      ensures finished <==> gameState != Playing
    {
      gameState == GameOver
    }
  }
}
