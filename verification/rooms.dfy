/**
 * The server's room registry: a map from room id to a room holding its
 * member names, the members' outbound channels, a chat log and the game
 * being played in it.
 */
module Rooms {
  import TicTacToe
  import RockPaperScissors
  import Uno

  /** An outbound channel handle; two handles are the same channel exactly when equal. */
  type ChannelId = nat

  /** The game a room hosts; a room created by a plain join hosts none yet. */
  datatype GameType =
    | TicTacToeGame(ttt: TicTacToe.TicTacToeModel)
    | RockPaperScissorsGame(rps: RockPaperScissors.RockPaperScissorsModel)
    | UnoGame(uno: Uno.UnoModel)
    | NoGame

  datatype GameRoom = GameRoom(users: seq<string>, txs: seq<ChannelId>, chatLog: seq<string>, game: GameType)

  /** The room a join creates when the id is unknown. */
  const DefaultRoom: GameRoom := GameRoom([], [], [], NoGame)

  /** The application state shared by every connection. */
  class AppState {
    var rooms: map<string, GameRoom>

    constructor ()
      ensures rooms == map[]
    {
      rooms := map[];
    }
  }
}
