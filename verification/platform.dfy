/**
 * The shapes the match platform exchanges with its clients: a player with
 * a mark, the state of a match, and the messages the server sends.
 */
module Platform {
  import opened Wrappers

  /** A platform player: an id, the name shown to others and a mark. */
  datatype Player = Player(id: string, displayName: string, mark: string)

  /** A match: its id, players in joining order, a status word, nine cells and the mark to move. */
  datatype MatchState = MatchState(
    matchId: string, players: seq<Player>, status: string,
    board: seq<Option<string>>, turn: Option<string>)

  /** The messages the platform server sends. */
  datatype ServerMsg =
    | Hello(serverVersion: string)
    | MatchCreated(matchId: string, you: Player)
    | Error(code: string, message: string)
    | StateUpdate(matchId: string, players: seq<Player>, status: string, board: seq<Option<string>>, turn: Option<string>)
    | JoinedMatch(matchId: string, you: Player)

  /** A new match is waiting, with nine empty cells and X to move. */
  function NewMatchState(matchId: string, players: seq<Player>): (s: MatchState)
    ensures s.matchId == matchId && s.players == players
    ensures s.status == "WAITING" && s.turn == Some("X")
    ensures |s.board| == 9 && forall i :: 0 <= i < 9 ==> s.board[i].None?
  {
    MatchState(matchId, players, "WAITING", seq(9, _ => None), Some("X"))
  }
}
