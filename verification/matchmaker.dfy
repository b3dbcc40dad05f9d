/**
 * The match registry: live rooms by match id, each with the authoritative
 * match state and a broadcast channel every socket in the room listens on.
 * Players are pushed into a room's state; the state is broadcast as a
 * snapshot; match ids are four random capital letters.
 */
module Matchmaker {
  import opened Wrappers
  import opened Platform

  // ---------------------------------------------------------------------
  // Match ids
  // ---------------------------------------------------------------------

  predicate IsMatchId(id: string) {
    |id| == 4 && forall i :: 0 <= i < 4 ==> 'A' <= id[i] <= 'Z'
  }

  /** Four draws, each from the 26 capital letters. */
  predicate IsLetterDraw(draws: seq<nat>) {
    |draws| == 4 && forall i :: 0 <= i < 4 ==> draws[i] < 26
  }

  /** The id spelled by four random draws, one letter per draw; the random source is the caller's. */
  function NewMatchId(draws: seq<nat>): (id: string)
    requires IsLetterDraw(draws)
    ensures IsMatchId(id)
  {
    seq(4, i requires 0 <= i < 4 => ('A' as int + draws[i]) as char)
  }

  /** The draws that spell an id. */
  function DrawsOf(id: string): seq<nat>
    requires IsMatchId(id)
  {
    seq(4, i requires 0 <= i < 4 => id[i] as int - 'A' as int)
  }

  /**
   * Draws and ids correspond one to one: every four-letter capital id can
   * be drawn, and different draws spell different ids.
   */
  lemma MatchIdsAreExactlyTheDraws(draws: seq<nat>, id: string)
    requires IsLetterDraw(draws) && IsMatchId(id)
    ensures IsLetterDraw(DrawsOf(id)) && NewMatchId(DrawsOf(id)) == id
    ensures DrawsOf(NewMatchId(draws)) == draws
  {
    assert NewMatchId(DrawsOf(id)) == id by {
      forall i | 0 <= i < 4 ensures NewMatchId(DrawsOf(id))[i] == id[i] {}
    }
  }

  // ---------------------------------------------------------------------
  // Rooms
  // ---------------------------------------------------------------------

  /** A broadcast channel with a bounded backlog. */
  class BroadcastChannel {
    const capacity: nat

    constructor (capacity: nat)
      ensures this.capacity == capacity
    {
      this.capacity := capacity;
    }
  }

  /** A live room: the match state and the room's broadcast channel. */
  class MatchRoom {
    var state: MatchState
    const bcast: BroadcastChannel

    constructor (state: MatchState, bcast: BroadcastChannel)
      ensures this.state == state && this.bcast == bcast
    {
      this.state := state;
      this.bcast := bcast;
    }
  }

  class MatchRegistry {
    var rooms: map<string, MatchRoom>

    constructor ()
      ensures rooms == map[]
    {
      rooms := map[];
    }
  }

  /** The match state after a player joins: the player at the end; two players start the match. */
  function Pushed(s: MatchState, p: Player): MatchState {
    s.(players := s.players + [p], status := if |s.players| + 1 == 2 then "IN_PROGRESS" else s.status)
  }

  /** Adds a player with the given mark to the room's state and returns it. */
  method PushPlayer(room: MatchRoom, id: string, displayName: string, mark: string) returns (p: Player)
    modifies room
    ensures p == Player(id, displayName, mark)
    ensures room.state == Pushed(old(room.state), p)
  {
    p := Player(id, displayName, mark);
    room.state := room.state.(players := room.state.players + [p]);
    if |room.state.players| == 2 {
      room.state := room.state.(status := "IN_PROGRESS");
    }
  }

  /** The state after a run of joins, in order. */
  function PushedAll(s: MatchState, ps: seq<Player>): MatchState
    decreases |ps|
  {
    if ps == [] then s else PushedAll(Pushed(s, ps[0]), ps[1..])
  }

  /**
   * After any run of joins the players are the old ones followed by the
   * joiners, in order, and the status switches to "IN_PROGRESS" exactly
   * when the count passes from below two to two or more; otherwise it is
   * kept. Nothing else of the state changes.
   */
  lemma {:induction false} PushedAllPlayers(s: MatchState, ps: seq<Player>)
    ensures PushedAll(s, ps).players == s.players + ps
    ensures PushedAll(s, ps).status ==
      if |s.players| < 2 <= |s.players| + |ps| then "IN_PROGRESS" else s.status
    ensures PushedAll(s, ps).matchId == s.matchId && PushedAll(s, ps).board == s.board && PushedAll(s, ps).turn == s.turn
    decreases |ps|
  {
    if ps != [] {
      PushedAllPlayers(Pushed(s, ps[0]), ps[1..]);
      assert s.players + [ps[0]] + ps[1..] == s.players + ps;
    }
  }

  /** Two joins into a new match put it in progress, with both players in joining order. */
  lemma TwoJoinsStartTheMatch(id: string, a: Player, b: Player)
    ensures PushedAll(NewMatchState(id, []), [a, b]).status == "IN_PROGRESS"
    ensures PushedAll(NewMatchState(id, []), [a, b]).players == [a, b]
  {
    PushedAllPlayers(NewMatchState(id, []), [a, b]);
  }

  /** The channel a socket subscribing to a match listens on; none for an unknown id. */
  function Subscribe(registry: MatchRegistry, matchId: string): (rx: Option<BroadcastChannel>)
    reads registry
    ensures rx.None? <==> matchId !in registry.rooms
    ensures rx.Some? ==> rx.value == registry.rooms[matchId].bcast
  {
    if matchId in registry.rooms then Some(registry.rooms[matchId].bcast) else None
  }

  /**
   * Opens a room under the state's match id with a new channel of
   * capacity 64, replacing any room with that id, and returns the id and
   * the creator's channel. A subscriber to the id then listens on it.
   */
  method CreateRoom(registry: MatchRegistry, state: MatchState) returns (id: string, rx: BroadcastChannel)
    modifies registry
    ensures id == state.matchId && fresh(rx) && rx.capacity == 64
    ensures id in registry.rooms && fresh(registry.rooms[id]) && registry.rooms[id].state == state
    ensures registry.rooms == old(registry.rooms)[id := registry.rooms[id]]
    ensures Subscribe(registry, id) == Some(rx)
  {
    var tx := new BroadcastChannel(64);
    id := state.matchId;
    var room := new MatchRoom(state, tx);
    registry.rooms := registry.rooms[id := room];
    rx := tx;
  }

  /**
   * Sends a snapshot of a room's state on its channel: the message and
   * the channel it went out on, or nothing for an unknown id. The snapshot
   * reaches exactly the sockets subscribed to the id.
   */
  method BroadcastState(registry: MatchRegistry, matchId: string) returns (sent: Option<(BroadcastChannel, ServerMsg)>)
    ensures sent.None? <==> Subscribe(registry, matchId).None?
    ensures sent.Some? ==> sent.value.0 == Subscribe(registry, matchId).value
    ensures sent.Some? ==>
      var s := registry.rooms[matchId].state;
      sent.value.1 == StateUpdate(s.matchId, s.players, s.status, s.board, s.turn)
  {
    if matchId !in registry.rooms {
      return None;
    }
    var room := registry.rooms[matchId];
    var update := StateUpdate(room.state.matchId, room.state.players, room.state.status, room.state.board, room.state.turn);
    sent := Some((room.bcast, update));
  }
}
