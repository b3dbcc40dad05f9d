/**
 * The rock-paper-scissors message handler: it looks up the room, seats the
 * first two members of the room's roster, records the sender's choice and
 * resolves the round once both seats chose, then answers with a snapshot
 * that reveals the choices only after the round is decided.
 */
module RockPaperScissorsHandler {
  import opened Wrappers
  import opened RockPaperScissors
  import opened Rooms

  datatype RpsPayloadToServer = RpsPayloadToServer(gameId: string, playerName: string, choice: Option<string>)

  datatype RpsPayloadToClient = RpsPayloadToClient(
    gameId: string, player1: Option<string>, player2: Option<string>,
    player1Choice: Option<string>, player2Choice: Option<string>,
    status: string, winner: Option<string>, message: Option<string>)

  // ---------------------------------------------------------------------
  // The game as a value
  // ---------------------------------------------------------------------

  /** Everything of a game the handler reads or writes. */
  datatype RpsView = RpsView(
    player1Name: Option<string>, player2Name: Option<string>,
    player1Choice: Option<RpsChoice>, player2Choice: Option<RpsChoice>,
    winner: RpsRoundResult)

  function ViewOf(m: RockPaperScissorsModel): RpsView
    reads m
  {
    RpsView(m.player1Name, m.player2Name, m.player1Choice, m.player2Choice, m.winner)
  }

  predicate Joined(v: RpsView) {
    v.player1Name.Some? && v.player2Name.Some?
  }

  predicate ChoicesMade(v: RpsView) {
    v.player1Choice.Some? && v.player2Choice.Some?
  }

  /** The choices are shown once both are made and the round has a result. */
  predicate Revealed(v: RpsView) {
    ChoicesMade(v) && v.winner != RpsRoundResult.Pending
  }

  // ---------------------------------------------------------------------
  // Replies
  // ---------------------------------------------------------------------

  /** An error reply: the seats when a game was found, no choices, no winner. */
  function BuildErrorPayload(gameId: string, game: Option<RpsView>, status: string, message: string): (msg: RpsPayloadToClient)
    ensures msg.gameId == gameId && msg.status == status && msg.message == Some(message)
    ensures msg.player1Choice == None && msg.player2Choice == None && msg.winner == None
    ensures msg.player1 == (if game.Some? then game.value.player1Name else None)
    ensures msg.player2 == (if game.Some? then game.value.player2Name else None)
  {
    var (player1, player2) := if game.Some? then (game.value.player1Name, game.value.player2Name) else (None, None);
    RpsPayloadToClient(gameId, player1, player2, None, None, status, None, Some(message))
  }

  /** The sentence describing a decided round. */
  function RoundMessage(v: RpsView): string {
    match v.winner
    case Tie => "Round ended in a tie."
    case Pending => "Round in progress."
    case _ =>
      var name := if v.winner == RpsRoundResult.Player1 then v.player1Name else v.player2Name;
      if name.Some? then name.value + " wins this round!" else "Round complete."
  }

  /**
   * The snapshot of a game. The status is, in this order of precedence:
   * waiting for an opponent, round complete, waiting for the other
   * player's choice, waiting for choices. The choices are shown only once
   * the round is decided, and then they parse back to the recorded choices.
   */
  function BuildStatePayload(gameId: string, v: RpsView): (msg: RpsPayloadToClient)
    ensures msg.gameId == gameId && msg.player1 == v.player1Name && msg.player2 == v.player2Name
    ensures msg.status == "waiting_for_opponent" <==> !Joined(v)
    ensures msg.status == "round_complete" <==> Joined(v) && Revealed(v)
    ensures msg.status == "waiting_for_opponent_choice" <==>
      Joined(v) && !Revealed(v) && (v.player1Choice.Some? || v.player2Choice.Some?)
    ensures msg.status == "waiting_for_choices" <==> Joined(v) && !Revealed(v) && v.player1Choice.None? && v.player2Choice.None?
    ensures msg.player1Choice.Some? <==> Revealed(v)
    ensures msg.player2Choice.Some? <==> Revealed(v)
    ensures Revealed(v) ==>
      msg.player1Choice == Some(AsStr(v.player1Choice.value)) && msg.player2Choice == Some(AsStr(v.player2Choice.value))
    ensures v.winner == RpsRoundResult.Player1 ==> msg.winner == v.player1Name
    ensures v.winner == RpsRoundResult.Player2 ==> msg.winner == v.player2Name
    ensures v.winner == RpsRoundResult.Tie ==> msg.winner == Some("tie")
    ensures v.winner == RpsRoundResult.Pending ==> msg.winner == None
    ensures !Joined(v) ==> msg.message == Some("Waiting for another player to join.")
    ensures Joined(v) && Revealed(v) && v.winner == RpsRoundResult.Tie ==> msg.message == Some("Round ended in a tie.")
    ensures Joined(v) && Revealed(v) && v.winner == RpsRoundResult.Player1 ==>
      msg.message == Some(v.player1Name.value + " wins this round!")
    ensures Joined(v) && Revealed(v) && v.winner == RpsRoundResult.Player2 ==>
      msg.message == Some(v.player2Name.value + " wins this round!")
    ensures msg.message.Some?
  {
    var decided := Revealed(v);
    var (status, message) :=
      if !Joined(v) then ("waiting_for_opponent", "Waiting for another player to join.")
      else if decided then ("round_complete", RoundMessage(v))
      else if v.player1Choice.Some? || v.player2Choice.Some? then
        ("waiting_for_opponent_choice", "Waiting for the other player to lock in.")
      else ("waiting_for_choices", "Choose rock, paper, or scissors.");
    var winner := (match v.winner
      case Player1 => v.player1Name
      case Player2 => v.player2Name
      case Tie => Some("tie")
      case Pending => None);
    var shown1 := if decided then Some(AsStr(v.player1Choice.value)) else None;
    var shown2 := if decided then Some(AsStr(v.player2Choice.value)) else None;
    RpsPayloadToClient(gameId, v.player1Name, v.player2Name, shown1, shown2, status, winner, Some(message))
  }

  /** The reply sent while a seat is still empty. */
  function WaitingPayload(gameId: string, v: RpsView): RpsPayloadToClient {
    RpsPayloadToClient(gameId, v.player1Name, v.player2Name, None, None,
      "waiting_for_opponent", None, Some("Waiting for another player to join."))
  }

  // ---------------------------------------------------------------------
  // One handled message, as a function on the game
  // ---------------------------------------------------------------------

  datatype Outcome = Waiting | InvalidChoice | UnknownPlayer | Updated

  /** The choice field of a message: absent, unreadable, or a choice. */
  datatype ChoiceField = NoChoice | Unreadable | Chosen(choice: RpsChoice)

  function ReadChoice(choice: Option<string>): (f: ChoiceField)
    ensures f.NoChoice? <==> choice.None?
    ensures f.Unreadable? <==> choice.Some? && FromStr(choice.value).None?
    ensures f.Chosen? ==> FromStr(choice.value) == Some(f.choice)
  {
    if choice.None? then NoChoice
    else match FromStr(choice.value)
      case None => Unreadable
      case Some(c) => Chosen(c)
  }

  /** Seats the first two roster members in the seats that are still empty. */
  function FillSeats(v: RpsView, users: seq<string>): RpsView {
    var v1 := if v.player1Name.None? && |users| > 0 then v.(player1Name := Some(users[0])) else v;
    if v1.player2Name.None? && |users| > 1 then v1.(player2Name := Some(users[1])) else v1
  }

  /** A choice by `name`: a decided round is cleared first; the choice goes into the sender's seat, if any. */
  function Submit(v: RpsView, name: string, choice: RpsChoice): (RpsView, bool) {
    var w := if Revealed(v) then v.(player1Choice := None, player2Choice := None, winner := RpsRoundResult.Pending) else v;
    if w.player1Name == Some(name) then (w.(player1Choice := Some(choice)), true)
    else if w.player2Name == Some(name) then (w.(player2Choice := Some(choice)), true)
    else (w, false)
  }

  /** Scores the round once both choices are in. */
  function Resolve(v: RpsView): RpsView {
    if ChoicesMade(v) then v.(winner := RoundOutcome(v.player1Choice.value, v.player2Choice.value)) else v
  }

  /** The game after one message from `name`, and which reply it gets. */
  function Step(v: RpsView, users: seq<string>, name: string, field: ChoiceField): (RpsView, Outcome) {
    var seated := FillSeats(v, users);
    if !Joined(seated) then (seated, Waiting)
    else match field
      case Unreadable => (seated, InvalidChoice)
      case NoChoice => (Resolve(seated), Updated)
      case Chosen(c) =>
        var submitted := Submit(seated, name, c);
        if submitted.1 then (Resolve(submitted.0), Updated) else (submitted.0, UnknownPlayer)
  }

  /** The reply for an outcome, given the game after the step. */
  function Reply(gameId: string, v: RpsView, outcome: Outcome): RpsPayloadToClient {
    match outcome
    case Waiting => WaitingPayload(gameId, v)
    case InvalidChoice => BuildErrorPayload(gameId, Some(v), "invalid_choice", "Choice must be rock, paper, or scissors.")
    case UnknownPlayer => BuildErrorPayload(gameId, Some(v), "unknown_player", "Only players in this room may submit choices.")
    case Updated => BuildStatePayload(gameId, v)
  }

  // ---------------------------------------------------------------------
  // The handler
  // ---------------------------------------------------------------------

  function RpsGameOf(rooms: map<string, GameRoom>, id: string): Option<RockPaperScissorsModel> {
    if id in rooms && rooms[id].game.RockPaperScissorsGame? then Some(rooms[id].game.rps) else None
  }

  function RpsFrame(rooms: map<string, GameRoom>, id: string): set<object> {
    if RpsGameOf(rooms, id).Some? then {RpsGameOf(rooms, id).value} else {}
  }

  /** Fills the empty seats from the roster, as `FillSeats` does. */
  method SeatPlayers(game: RockPaperScissorsModel, users: seq<string>)
    modifies game`player1Name, game`player2Name
    ensures ViewOf(game) == FillSeats(old(ViewOf(game)), users)
  {
    if game.player1Name.None? && |users| > 0 {
      game.player1Name := Some(users[0]);
    }
    if game.player2Name.None? && |users| > 1 {
      game.player2Name := Some(users[1]);
    }
  }

  /** Records a choice through the model, as `Submit` does; `ok` is false for a sender without a seat. */
  method SubmitThrough(game: RockPaperScissorsModel, name: string, c: RpsChoice) returns (ok: bool)
    modifies game`player1Choice, game`player2Choice, game`winner
    ensures (ViewOf(game), ok) == Submit(old(ViewOf(game)), name, c)
  {
    var r := game.SubmitChoice(name, c);
    ok := r.Ok?;
  }

  /** Scores the round through the model when both choices are in, as `Resolve` does. */
  method ResolveThrough(game: RockPaperScissorsModel)
    modifies game`winner
    ensures ViewOf(game) == Resolve(old(ViewOf(game)))
  {
    if game.BothChoicesMade() {
      var _ := game.ResolveRound();
    }
  }

  /** One message applied to a game found in the room: the step `Step` describes, answered as `Reply` says. */
  method Play(game: RockPaperScissorsModel, users: seq<string>, gameId: string, name: string, field: ChoiceField)
    returns (msg: RpsPayloadToClient)
    modifies game
    ensures var step := Step(old(ViewOf(game)), users, name, field);
      ViewOf(game) == step.0 && msg == Reply(gameId, step.0, step.1)
  {
    SeatPlayers(game, users);
    if !game.BothPlayersJoined() {
      return WaitingPayload(gameId, ViewOf(game));
    }
    if field.Unreadable? {
      return BuildErrorPayload(gameId, Some(ViewOf(game)), "invalid_choice", "Choice must be rock, paper, or scissors.");
    }
    if field.Chosen? {
      var ok := SubmitThrough(game, name, field.choice);
      if !ok {
        return BuildErrorPayload(gameId, Some(ViewOf(game)), "unknown_player", "Only players in this room may submit choices.");
      }
    }
    ResolveThrough(game);
    msg := BuildStatePayload(gameId, ViewOf(game));
  }

  /**
   * Handles one message. An unknown room and a room playing another game
   * are errors that change nothing; otherwise the game takes the step
   * `Step` describes, with the room's roster and the message's choice
   * field, and the reply is the one `Reply` gives for it.
   */
  method HandleRockPaperScissors(rooms: map<string, GameRoom>, payload: RpsPayloadToServer)
    returns (msg: RpsPayloadToClient)
    modifies RpsFrame(rooms, payload.gameId)
    ensures payload.gameId !in rooms ==>
      msg == BuildErrorPayload(payload.gameId, None, "room_not_found", "Room not found.")
    ensures payload.gameId in rooms && RpsGameOf(rooms, payload.gameId).None? ==>
      msg == BuildErrorPayload(payload.gameId, None, "wrong_game_type", "This room is not a RockPaperScissors game.")
    ensures RpsGameOf(rooms, payload.gameId).Some? ==>
      var m := RpsGameOf(rooms, payload.gameId).value;
      var step := Step(old(ViewOf(m)), rooms[payload.gameId].users, payload.playerName, ReadChoice(payload.choice));
      ViewOf(m) == step.0 && msg == Reply(payload.gameId, step.0, step.1)
  {
    if payload.gameId !in rooms {
      return BuildErrorPayload(payload.gameId, None, "room_not_found", "Room not found.");
    }
    var room := rooms[payload.gameId];
    if !room.game.RockPaperScissorsGame? {
      return BuildErrorPayload(payload.gameId, None, "wrong_game_type", "This room is not a RockPaperScissors game.");
    }
    msg := Play(room.game.rps, room.users, payload.gameId, payload.playerName, ReadChoice(payload.choice));
  }

  // ---------------------------------------------------------------------
  // What a handled message guarantees
  // ---------------------------------------------------------------------

  /** A filled seat is never overwritten; an empty one is filled only from its place in the roster. */
  lemma SeatsAreStable(v: RpsView, users: seq<string>, name: string, field: ChoiceField)
    ensures var w := Step(v, users, name, field).0;
      (v.player1Name.Some? ==> w.player1Name == v.player1Name)
      && (v.player2Name.Some? ==> w.player2Name == v.player2Name)
      && (v.player1Name.None? ==> w.player1Name == (if |users| > 0 then Some(users[0]) else None))
      && (v.player2Name.None? ==> w.player2Name == (if |users| > 1 then Some(users[1]) else None))
  {
  }

  /** After a message that was handled in full, a round with both choices in has its result and is shown. */
  lemma UpdatedRoundIsResolved(v: RpsView, users: seq<string>, name: string, field: ChoiceField)
    requires Step(v, users, name, field).1 == Updated && ChoicesMade(Step(v, users, name, field).0)
    ensures var w := Step(v, users, name, field).0;
      w.winner == RoundOutcome(w.player1Choice.value, w.player2Choice.value) && Revealed(w)
  {
  }

  /**
   * A refused message records no choice: an unreadable choice changes only
   * the seats, and a sender without a seat at most clears a decided round.
   */
  lemma RefusedChoiceRecordsNothing(v: RpsView, users: seq<string>, name: string, field: ChoiceField)
    requires Step(v, users, name, field).1 in {InvalidChoice, UnknownPlayer}
    ensures var (w, outcome) := Step(v, users, name, field);
      w.player1Name == FillSeats(v, users).player1Name && w.player2Name == FillSeats(v, users).player2Name
      && (outcome == InvalidChoice ==> w == FillSeats(v, users))
      && (outcome == UnknownPlayer ==>
            (w.player1Choice == v.player1Choice || w.player1Choice == None)
            && (w.player2Choice == v.player2Choice || w.player2Choice == None))
  {
  }

  /** A valid choice from the first seat lands in that seat; the other seat keeps its choice unless a decided round was cleared. */
  lemma ChoiceLandsInOwnSeat(v: RpsView, users: seq<string>, name: string, c: RpsChoice)
    requires Joined(FillSeats(v, users)) && FillSeats(v, users).player1Name == Some(name)
    ensures var w := Step(v, users, name, Chosen(c)).0;
      Step(v, users, name, Chosen(c)).1 == Updated && w.player1Choice == Some(c)
      && w.player2Choice == (if Revealed(v) then None else v.player2Choice)
  {
  }

  /** The choices a round-complete snapshot shows read back as the choices that were made. */
  lemma RevealedChoicesReadBack(gameId: string, v: RpsView)
    requires Revealed(v)
    ensures FromStr(BuildStatePayload(gameId, v).player1Choice.value) == v.player1Choice
    ensures FromStr(BuildStatePayload(gameId, v).player2Choice.value) == v.player2Choice
  {
    FromStrAsStr(v.player1Choice.value);
    FromStrAsStr(v.player2Choice.value);
  }

  /** Until both seats are filled, the reply hides the choices and names no winner. */
  lemma WaitingHidesChoices(gameId: string, v: RpsView, users: seq<string>, name: string, field: ChoiceField)
    requires !Joined(FillSeats(v, users))
    ensures var (w, outcome) := Step(v, users, name, field);
      outcome == Waiting && w == FillSeats(v, users)
      && Reply(gameId, w, outcome).status == "waiting_for_opponent"
      && Reply(gameId, w, outcome).player1Choice == None && Reply(gameId, w, outcome).player2Choice == None
      && Reply(gameId, w, outcome).winner == None
  {
  }
}
