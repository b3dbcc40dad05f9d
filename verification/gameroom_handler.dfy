/**
 * Joining and leaving rooms. A join creates the room when its id is
 * unknown, adds the name once and registers the sender's channel; a leave
 * takes the name and the sender's channel out of the room and drops the
 * room when no member is left. Each handler is one atomic step on the
 * registry.
 */
module GameRoomHandler {
  import opened Rooms

  /** A join or leave request, echoed back as the reply. */
  datatype GameRoomPayload = GameRoomPayload(action: string, playerName: string, gameId: string)

  // ---------------------------------------------------------------------
  // Sequences without a value
  // ---------------------------------------------------------------------

  predicate NoDuplicates<T(==)>(s: seq<T>) {
    forall i, j :: 0 <= i < j < |s| ==> s[i] != s[j]
  }

  /** The sequence with every occurrence of x taken out, the rest in order. */
  function Without<T(==,!new)>(s: seq<T>, x: T): (r: seq<T>)
    ensures forall y :: y in r <==> y in s && y != x
    ensures |r| <= |s|
  {
    if s == [] then []
    else Without(s[..|s| - 1], x) + (if s[|s| - 1] == x then [] else [s[|s| - 1]])
  }

  /** Taking a value out of a sequence without duplicates leaves one without duplicates. */
  lemma {:induction false} WithoutKeepsNoDuplicates<T(!new)>(s: seq<T>, x: T)
    requires NoDuplicates(s)
    ensures NoDuplicates(Without(s, x))
    decreases |s|
  {
    if s != [] {
      var init := s[..|s| - 1];
      assert NoDuplicates(init);
      WithoutKeepsNoDuplicates(init, x);
      assert s[|s| - 1] !in init;
    }
  }

  /** Keeps the elements different from x, front to back, as a vector's `retain` does. */
  method Retain<T(==,!new)>(s: seq<T>, x: T) returns (r: seq<T>)
    ensures r == Without(s, x)
  {
    r := [];
    var i := 0;
    while i < |s|
      invariant 0 <= i <= |s|
      invariant r == Without(s[..i], x)
    {
      assert s[..i + 1][..i] == s[..i];
      if s[i] != x {
        r := r + [s[i]];
      }
      i := i + 1;
    }
    assert s[..|s|] == s;
  }

  // ---------------------------------------------------------------------
  // The two steps on the registry
  // ---------------------------------------------------------------------

  /** The room after `name` joined over channel `tx`: the name once, the channel always. */
  function JoinedRoom(room: GameRoom, name: string, tx: ChannelId): GameRoom {
    room.(users := if name in room.users then room.users else room.users + [name], txs := room.txs + [tx])
  }

  /** The registry after a join; an unknown id gets a default room first. */
  function JoinRooms(rooms: map<string, GameRoom>, p: GameRoomPayload, tx: ChannelId): map<string, GameRoom> {
    var room := if p.gameId in rooms then rooms[p.gameId] else DefaultRoom;
    rooms[p.gameId := JoinedRoom(room, p.playerName, tx)]
  }

  /** The room after `name` left over channel `tx`: every occurrence of both taken out. */
  function LeftRoom(room: GameRoom, name: string, tx: ChannelId): GameRoom {
    room.(users := Without(room.users, name), txs := Without(room.txs, tx))
  }

  /** The registry after a leave; a room left without members is dropped, an unknown id changes nothing. */
  function LeaveRooms(rooms: map<string, GameRoom>, p: GameRoomPayload, tx: ChannelId): map<string, GameRoom> {
    if p.gameId !in rooms then rooms
    else
      var room := LeftRoom(rooms[p.gameId], p.playerName, tx);
      if room.users == [] then rooms - {p.gameId} else rooms[p.gameId := room]
  }

  // ---------------------------------------------------------------------
  // The handlers
  // ---------------------------------------------------------------------

  /** A join, as `JoinRooms` describes; the reply is the request. */
  method HandleJoin(state: AppState, payload: GameRoomPayload, userTx: ChannelId) returns (msg: GameRoomPayload)
    modifies state
    ensures state.rooms == JoinRooms(old(state.rooms), payload, userTx)
    ensures msg == payload
  {
    var room := if payload.gameId in state.rooms then state.rooms[payload.gameId] else DefaultRoom;
    if payload.playerName !in room.users {
      room := room.(users := room.users + [payload.playerName]);
    }
    room := room.(txs := room.txs + [userTx]);
    state.rooms := state.rooms[payload.gameId := room];
    msg := payload;
  }

  /** A leave, as `LeaveRooms` describes; the reply is the request. */
  method HandleLeave(state: AppState, payload: GameRoomPayload, userTx: ChannelId) returns (msg: GameRoomPayload)
    modifies state
    ensures state.rooms == LeaveRooms(old(state.rooms), payload, userTx)
    ensures msg == payload
  {
    if payload.gameId in state.rooms {
      var room := state.rooms[payload.gameId];
      var users := Retain(room.users, payload.playerName);
      var txs := Retain(room.txs, userTx);
      room := room.(users := users, txs := txs);
      if room.users == [] {
        state.rooms := state.rooms - {payload.gameId};
      } else {
        state.rooms := state.rooms[payload.gameId := room];
      }
    }
    msg := payload;
  }

  /** Dispatches on the action: "join", "leave", or anything else, which is answered as "invalid" and changes nothing. */
  method GameroomHandler(state: AppState, payload: GameRoomPayload, userTx: ChannelId) returns (msg: GameRoomPayload)
    modifies state
    ensures payload.action == "join" ==> state.rooms == JoinRooms(old(state.rooms), payload, userTx) && msg == payload
    ensures payload.action == "leave" ==> state.rooms == LeaveRooms(old(state.rooms), payload, userTx) && msg == payload
    ensures payload.action != "join" && payload.action != "leave" ==>
      state.rooms == old(state.rooms) && msg == payload.(action := "invalid")
  {
    if payload.action == "join" {
      msg := HandleJoin(state, payload, userTx);
    } else if payload.action == "leave" {
      msg := HandleLeave(state, payload, userTx);
    } else {
      msg := payload.(action := "invalid");
    }
  }

  // ---------------------------------------------------------------------
  // What joining and leaving guarantee
  // ---------------------------------------------------------------------

  /** Only the joined room changes; its members are the old ones and the joiner, each once, and its channels gain the sender's. */
  lemma JoinAddsMemberOnce(rooms: map<string, GameRoom>, p: GameRoomPayload, tx: ChannelId)
    requires p.gameId in rooms ==> NoDuplicates(rooms[p.gameId].users)
    ensures var after := JoinRooms(rooms, p, tx);
      var before := if p.gameId in rooms then rooms[p.gameId] else DefaultRoom;
      p.gameId in after
      && (forall u :: u in after[p.gameId].users <==> u in before.users || u == p.playerName)
      && NoDuplicates(after[p.gameId].users)
      && after[p.gameId].txs == before.txs + [tx]
      && after[p.gameId].game == before.game && after[p.gameId].chatLog == before.chatLog
      && (forall id :: id != p.gameId ==> (id in after <==> id in rooms) && (id in rooms ==> after[id] == rooms[id]))
  {
  }

  /** Joining a second time adds no member, only another copy of the channel. */
  lemma JoinTwiceSameMembers(rooms: map<string, GameRoom>, p: GameRoomPayload, tx: ChannelId)
    ensures var once := JoinRooms(rooms, p, tx);
      var twice := JoinRooms(once, p, tx);
      twice[p.gameId].users == once[p.gameId].users && twice[p.gameId].txs == once[p.gameId].txs + [tx]
  {
  }

  /**
   * After a leave the member and the sender's channel are gone from the
   * room, every other member and channel stays, and the room is dropped
   * exactly when no member is left. Other rooms do not change.
   */
  lemma LeaveRemovesMember(rooms: map<string, GameRoom>, p: GameRoomPayload, tx: ChannelId)
    requires p.gameId in rooms
    ensures var after := LeaveRooms(rooms, p, tx);
      var before := rooms[p.gameId];
      (p.gameId !in after <==> forall u :: u in before.users ==> u == p.playerName)
      && (p.gameId in after ==>
            (forall u :: u in after[p.gameId].users <==> u in before.users && u != p.playerName)
            && (forall c :: c in after[p.gameId].txs <==> c in before.txs && c != tx)
            && after[p.gameId].game == before.game)
      && (forall id :: id != p.gameId ==> (id in after <==> id in rooms) && (id in rooms ==> after[id] == rooms[id]))
  {
    var room := LeftRoom(rooms[p.gameId], p.playerName, tx);
    if room.users != [] {
      assert room.users[0] in room.users;
    }
  }

  /** Leaving keeps a duplicate-free member list duplicate-free. */
  lemma LeaveKeepsMembersDistinct(rooms: map<string, GameRoom>, p: GameRoomPayload, tx: ChannelId)
    requires p.gameId in rooms && NoDuplicates(rooms[p.gameId].users)
    ensures p.gameId in LeaveRooms(rooms, p, tx) ==> NoDuplicates(LeaveRooms(rooms, p, tx)[p.gameId].users)
  {
    WithoutKeepsNoDuplicates(rooms[p.gameId].users, p.playerName);
  }

  /** A leave on an unknown room changes nothing. */
  lemma LeaveUnknownRoomIsNoOp(rooms: map<string, GameRoom>, p: GameRoomPayload, tx: ChannelId)
    requires p.gameId !in rooms
    ensures LeaveRooms(rooms, p, tx) == rooms
  {
  }

  /** Leaving a room one's own join created, over the same channel, restores the registry. */
  lemma {:induction false} LeaveUndoesCreatingJoin(rooms: map<string, GameRoom>, name: string, id: string, tx: ChannelId)
    requires id !in rooms
    ensures LeaveRooms(JoinRooms(rooms, GameRoomPayload("join", name, id), tx), GameRoomPayload("leave", name, id), tx) == rooms
  {
    var joined := JoinRooms(rooms, GameRoomPayload("join", name, id), tx);
    assert joined[id].users == [name];
    assert Without([name], name) == Without([], name) + [];
    assert joined - {id} == rooms;
  }
}
