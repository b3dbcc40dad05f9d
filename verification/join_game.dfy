/**
 * The create-or-join request: it adds the name to the room's members once,
 * creating the room with the name as its only member when the id is
 * unknown. Unlike the join of the room handler it registers no channel.
 */
module JoinGame {
  import opened Rooms
  import opened GameRoomHandler

  /** The registry after a create-or-join. */
  function JoinGameRooms(rooms: map<string, GameRoom>, p: GameRoomPayload): map<string, GameRoom> {
    if p.gameId in rooms then
      var room := rooms[p.gameId];
      rooms[p.gameId := room.(users := if p.playerName in room.users then room.users else room.users + [p.playerName])]
    else
      rooms[p.gameId := DefaultRoom.(users := [p.playerName])]
  }

  /** A create-or-join, as `JoinGameRooms` describes; the reply is the request. */
  method JoinGame(state: AppState, payload: GameRoomPayload) returns (msg: GameRoomPayload)
    modifies state
    ensures state.rooms == JoinGameRooms(old(state.rooms), payload)
    ensures msg == payload
  {
    if payload.gameId in state.rooms {
      var room := state.rooms[payload.gameId];
      if payload.playerName !in room.users {
        state.rooms := state.rooms[payload.gameId := room.(users := room.users + [payload.playerName])];
      } else {
        assert room.(users := room.users) == room;
        assert state.rooms[payload.gameId := room] == state.rooms;
      }
      msg := payload;
    } else {
      var room := DefaultRoom;
      room := room.(users := room.users + [payload.playerName]);
      assert room.users == [payload.playerName];
      state.rooms := state.rooms[payload.gameId := room];
      msg := payload;
    }
  }

  /**
   * Afterwards the room exists and has the name as a member. A known room
   * gains the name exactly when it lacked it, at the end; an unknown id
   * gets a room whose only member is the name. No other room changes.
   */
  lemma JoinGameAddsMember(rooms: map<string, GameRoom>, p: GameRoomPayload)
    ensures var after := JoinGameRooms(rooms, p);
      p.gameId in after && p.playerName in after[p.gameId].users
      && (p.gameId in rooms ==>
            after[p.gameId].users == (if p.playerName in rooms[p.gameId].users then rooms[p.gameId].users
                                      else rooms[p.gameId].users + [p.playerName])
            && after[p.gameId].txs == rooms[p.gameId].txs && after[p.gameId].game == rooms[p.gameId].game)
      && (p.gameId !in rooms ==> after[p.gameId] == GameRoom([p.playerName], [], [], NoGame))
      && (forall id :: id != p.gameId ==> (id in after <==> id in rooms) && (id in rooms ==> after[id] == rooms[id]))
  {
  }

  /**
   * The create-or-join and the room handler's join agree on everything but
   * the channels: the room handler's also registers the sender's channel.
   */
  lemma JoinGameAgreesWithHandleJoin(rooms: map<string, GameRoom>, p: GameRoomPayload, tx: ChannelId)
    ensures var viaJoinGame := JoinGameRooms(rooms, p);
      var viaHandler := JoinRooms(rooms, p, tx);
      viaJoinGame.Keys == viaHandler.Keys
      && viaHandler[p.gameId] == viaJoinGame[p.gameId].(txs := viaJoinGame[p.gameId].txs + [tx])
      && (forall id :: id in viaJoinGame && id != p.gameId ==> viaJoinGame[id] == viaHandler[id])
  {
  }

  /** Joining keeps a duplicate-free member list duplicate-free. */
  lemma JoinGameKeepsMembersDistinct(rooms: map<string, GameRoom>, p: GameRoomPayload)
    requires p.gameId in rooms ==> NoDuplicates(rooms[p.gameId].users)
    ensures NoDuplicates(JoinGameRooms(rooms, p)[p.gameId].users)
  {
  }
}
