# CMPS401 game server, modelled in Dafny

This project models the core of a small multiplayer game server. Players join
named rooms over a WebSocket and play one of three games in them.

- **Rooms.** The server keeps a registry from room id to a room. A room holds
  its member names, the members' outbound channels, a chat log and the game
  being played. Joining adds a member once. Leaving removes the member and
  their channel. A separate create-or-join request adds the name and registers no
  channel. A match registry keys live rooms by four-letter match ids, each
  with a match state and a broadcast channel.
- **Tic-tac-toe.** The board is a 3x3 grid of marks (+1 for X, -1 for O,
  0 for empty). The project covers four versions of the game:
  - the current server model, which checks rows, columns and diagonals for
    a sum of ±3;
  - an older engine that keeps running line sums and has a small AI (win,
    block, random);
  - a terminal controller that validates moves and keeps win counts;
  - a draft of the platform's game-logic interface.
  The WebSocket handler parses a choice such as `B3` and replies with the
  board, the turn and the winner.
- **Rock-paper-scissors.** Two players each submit a choice as text, which
  is trimmed and case-folded. The round is judged once both choices are in.
- **Uno.** This covers three parts:
  - the server engine: the 108-card deck, dealing seven cards per seat,
    flipping the first non-wild card, playability, the effects of action
    cards and turn order;
  - the WebSocket handler for start, draw, pass and play, including the
    win check and the public and private updates;
  - the client's pure rules for whose turn it is and which cards may be
    played.

Game objects whose fields the server updates in place are Dafny classes, and
their methods state the new state against specification functions. Boards
that are fixed-size buffers are arrays. Pure parsing and judging code is
written as functions. Lemmas relate each operation to an invariant it keeps,
to its inverse or to an independent definition.

Some inputs are parameters rather than modelled:
- the random shuffle of the Uno deck is any permutation of the full deck;
- the tic-tac-toe AI's random fallback is any free cell;
- the four random letters of a match id are the caller's draws.

Sockets, locks and tasks are modelled as plain sequences of atomic steps.
The server's replies are returned as values.

## Model

| member | source | states |
|---|---|---|
| GameRoomHandler.Without | Project/server/src/routes/gameroom_handler.rs:59-62 | what a `retain` keeps: exactly the elements different from the removed value, never more elements than before |
| GameRoomHandler.WithoutKeepsNoDuplicates | Project/server/src/routes/gameroom_handler.rs:59 | taking a name out of a duplicate-free member list leaves it duplicate-free |
| GameRoomHandler.Retain | Project/server/src/routes/gameroom_handler.rs:59-62 | the front-to-back `retain` loop produces `Without`: the other elements, in their order |
| GameRoomHandler.HandleJoin | Project/server/src/routes/gameroom_handler.rs:29-47 | the registry becomes `JoinRooms`: an unknown id gets a default room, the name is added only if absent, the sender's channel is always appended; the reply echoes the request |
| GameRoomHandler.HandleLeave | Project/server/src/routes/gameroom_handler.rs:50-71 | the registry becomes `LeaveRooms`: an unknown id changes nothing, otherwise the name and the sender's channel are taken out and a room left without members is removed; the reply echoes the request |
| GameRoomHandler.GameroomHandler | Project/server/src/routes/gameroom_handler.rs:12-26 | "join" and "leave" take the join and leave steps; any other action changes nothing and is answered with the request marked "invalid" |
| GameRoomHandler.JoinAddsMemberOnce | Project/server/src/routes/gameroom_handler.rs:34-46 | after a join the room exists, its members are the old ones plus the joiner with no duplicates, its channels gain exactly the sender's, its game and chat are kept, and no other room changes |
| GameRoomHandler.JoinTwiceSameMembers | Project/server/src/routes/gameroom_handler.rs:39-44 | a repeated join adds no member but another copy of the channel |
| GameRoomHandler.LeaveRemovesMember | Project/server/src/routes/gameroom_handler.rs:57-67 | after a leave the name and the channel are gone and every other member and channel stays; the room disappears exactly when the leaver was its only member name; other rooms are untouched |
| GameRoomHandler.LeaveKeepsMembersDistinct | Project/server/src/routes/gameroom_handler.rs:59 | a leave keeps a duplicate-free member list duplicate-free |
| GameRoomHandler.LeaveUnknownRoomIsNoOp | Project/server/src/routes/gameroom_handler.rs:57 | leaving an unknown room changes nothing |
| GameRoomHandler.LeaveUndoesCreatingJoin | Project/server/src/routes/gameroom_handler.rs:29-71 | leaving, over the same channel, a room one's own join created gives back the registry as it was |
| JoinGame.JoinGame | Project/server/src/routes/join_game.rs:11-31 | the registry becomes `JoinGameRooms` and the reply echoes the request |
| JoinGame.JoinGameAddsMember | Project/server/src/routes/join_game.rs:14-29 | afterwards the room exists and has the name; a known room gains it at the end only if it lacked it and keeps its channels and game; an unknown id gets a room whose only member is the name; no other room changes |
| JoinGame.JoinGameAgreesWithHandleJoin | Project/server/src/routes/join_game.rs:11-31 | create-or-join and the room handler's join give the same registry except that the handler also appends the sender's channel |
| JoinGame.JoinGameKeepsMembersDistinct | Project/server/src/routes/join_game.rs:16-18 | create-or-join keeps a duplicate-free member list duplicate-free |
| Platform.NewMatchState | Project/server/src/types.rs:24-32 | a new match is "WAITING" with the given id and players, nine empty cells and X to move |
| Matchmaker.NewMatchId | Project/server/src/matchmaker.rs:13-17 | an id is four capital letters, one per random draw |
| Matchmaker.MatchIdsAreExactlyTheDraws | Project/server/src/matchmaker.rs:13-17 | draws and ids correspond one to one: every four-capital id can be drawn and different draws give different ids |
| Matchmaker.PushPlayer | Project/server/src/matchmaker.rs:58-69 | returns the player built from its arguments; the room's state gains it at the end and turns "IN_PROGRESS" when the count reaches two |
| Matchmaker.PushedAllPlayers | Project/server/src/matchmaker.rs:58-69 | after any run of joins the players are the old ones followed by the joiners in order; the status switches to "IN_PROGRESS" exactly when the count passes two, and id, board and turn are kept |
| Matchmaker.TwoJoinsStartTheMatch | Project/server/src/matchmaker.rs:64-67 | two joins into a new match put it in progress with both players in joining order |
| Matchmaker.Subscribe | Project/server/src/matchmaker.rs:34-40 | a subscriber gets the room's channel, and nothing exactly when the id is unknown |
| Matchmaker.CreateRoom | Project/server/src/matchmaker.rs:20-31 | opens a room under the state's id with a new 64-slot channel, replacing any room with that id and no other; a subscriber to the id then gets the creator's channel |
| Matchmaker.BroadcastState | Project/server/src/matchmaker.rs:43-54 | for a known id a snapshot of the room's state goes out on exactly the channel subscribers get; for an unknown id nothing is sent |
| RockPaperScissors.TrimStart | Project/server/src/models/rockpaperscissors/model.rs:10 | the result is a suffix of the input that starts with no white space, and everything dropped before it is white space |
| RockPaperScissors.TrimEnd | Project/server/src/models/rockpaperscissors/model.rs:10 | the result is a prefix of the input that ends with no white space, and everything dropped after it is white space |
| RockPaperScissors.Trim | Project/server/src/models/rockpaperscissors/model.rs:10 | the trimmed word is a slice of the input with only white space before and after it, and it neither starts nor ends with white space |
| RockPaperScissors.Lower | Project/server/src/models/rockpaperscissors/model.rs:10 | lower-casing keeps the length and maps each character on its own |
| RockPaperScissors.AsStr | Project/server/src/models/rockpaperscissors/model.rs:18-24 | the wire spelling of a choice is a non-empty lower-case word |
| RockPaperScissors.ChoiceOfWord | Project/server/src/models/rockpaperscissors/model.rs:10-15 | a normalised word names a choice exactly when it is that choice's full name or its initial; any other word names none |
| RockPaperScissors.FromStrAsStr | Project/server/src/models/rockpaperscissors/model.rs:9-24 | parsing the wire spelling of a choice gives the choice back |
| RockPaperScissors.LowerWordIsNormal | Project/server/src/models/rockpaperscissors/model.rs:10 | a non-empty lower-case word is unchanged by trimming and lower-casing |
| RockPaperScissors.RoundOutcome | Project/server/src/models/rockpaperscissors/model.rs:105-114 | never Pending; a tie exactly when the choices are equal; seat 1 wins exactly when its choice beats the other in the rock-scissors-paper cycle, and seat 2 likewise |
| RockPaperScissors.OutcomeAntisymmetric | Project/server/src/models/rockpaperscissors/model.rs:105-114 | swapping the choices swaps the winner, and equal choices tie |
| RockPaperScissors.OutcomeTable | Project/server/src/models/rockpaperscissors/model.rs:105-114 | all nine entries of the outcome table |
| RockPaperScissors.RockPaperScissorsModel.constructor | Project/server/src/models/rockpaperscissors/model.rs:51-59 | a new game has no seats, no choices and a pending result |
| RockPaperScissors.RockPaperScissorsModel.ResetRound | Project/server/src/models/rockpaperscissors/model.rs:61-65 | clears both choices and the result and nothing else |
| RockPaperScissors.RockPaperScissorsModel.SlotOf | Project/server/src/models/rockpaperscissors/model.rs:127-135 | the first seat when it holds the name, else the second when it does, else none |
| RockPaperScissors.RockPaperScissorsModel.SubmitChoice | Project/server/src/models/rockpaperscissors/model.rs:75-92 | a resolved round is cleared first; the choice lands in the caller's own seat and the other seat is kept (or cleared with the round); an unknown caller gets "unknown_player" and records nothing; the seats never change |
| RockPaperScissors.RockPaperScissorsModel.ResolveRound | Project/server/src/models/rockpaperscissors/model.rs:94-117 | the stored and returned result is Pending until both chose, and then the table outcome of the two choices |
| RockPaperScissors.RockPaperScissorsModel.WinnerName | Project/server/src/models/rockpaperscissors/model.rs:119-125 | the winning seat's name; none while pending or tied |
| RockPaperScissorsHandler.BuildErrorPayload | Project/server/src/routes/rockpaperscissors_handler.rs:143-165 | an error reply carries the status and message, the seats only when a game was given, and never choices or a winner |
| RockPaperScissorsHandler.BuildStatePayload | Project/server/src/routes/rockpaperscissors_handler.rs:88-141 | the four statuses in their order of precedence, each as an if-and-only-if; the choices are shown exactly when the round is decided; the winner field and the message follow the result |
| RockPaperScissorsHandler.ReadChoice | Project/server/src/routes/rockpaperscissors_handler.rs:61-69 | an absent choice, an unreadable one and a parsed one are told apart exactly as the parser decides |
| RockPaperScissorsHandler.SeatPlayers | Project/server/src/routes/rockpaperscissors_handler.rs:40-46 | the game after seating is `FillSeats` of the game before |
| RockPaperScissorsHandler.SubmitThrough | Project/server/src/routes/rockpaperscissors_handler.rs:71-78 | the model's submit does what `Submit` describes, and succeeds exactly for a seated sender |
| RockPaperScissorsHandler.ResolveThrough | Project/server/src/routes/rockpaperscissors_handler.rs:81-83 | the game afterwards is `Resolve` of the game before |
| RockPaperScissorsHandler.Play | Project/server/src/routes/rockpaperscissors_handler.rs:40-85 | the game after the message is the one `Step` gives, and the reply is `Reply` for that step |
| RockPaperScissorsHandler.HandleRockPaperScissors | Project/server/src/routes/rockpaperscissors_handler.rs:16-86 | an unknown room and a room with another game get their error replies and change nothing; otherwise the room's game takes `Step` with the room's roster and the reply is `Reply` |
| RockPaperScissorsHandler.SeatsAreStable | Project/server/src/routes/rockpaperscissors_handler.rs:41-46 | a filled seat is never overwritten; an empty one is filled only from its own place in the roster |
| RockPaperScissorsHandler.UpdatedRoundIsResolved | Project/server/src/routes/rockpaperscissors_handler.rs:81-85 | after a fully handled message, a round with both choices in carries the table outcome and is shown |
| RockPaperScissorsHandler.RefusedChoiceRecordsNothing | Project/server/src/routes/rockpaperscissors_handler.rs:61-78 | a refused message records no choice: an unreadable one changes only the seats, and a sender without a seat at most clears a decided round |
| RockPaperScissorsHandler.ChoiceLandsInOwnSeat | Project/server/src/routes/rockpaperscissors_handler.rs:71-79 | a valid choice from the first seat lands there; the other seat keeps its choice unless a decided round was cleared |
| RockPaperScissorsHandler.RevealedChoicesReadBack | Project/server/src/routes/rockpaperscissors_handler.rs:122-131 | the choices a round-complete snapshot shows parse back to the recorded choices |
| RockPaperScissorsHandler.WaitingHidesChoices | Project/server/src/routes/rockpaperscissors_handler.rs:48-59 | until both seats are filled the game only gains seats and the reply shows no choice and no winner |
| Board.SetCell | Project/server/src/models/tictactoe/model.rs:82-85 | writing a cell changes that cell to the value and leaves the other eight as they were |
| Board.WellMarkedAfterSet | Project/server/src/models/tictactoe/model.rs:82-85 | writing a mark (1, -1 or 0) keeps every cell a mark |
| Board.GridOf | Project/server/src/models/tictactoe/model.rs:17 | the 3 by 3 board array read as a value holds exactly the array's cells |
| Board.LineCell | Project/server/src/models/tictactoe/model.rs:97-109 | every cell named by the table of eight lines is on the board |
| Board.LineSumsAreRowColDiagSums | Project/server/src/models/tictactoe/model.rs:97-109 | the eight lines of the table are the three rows, the three columns and the two diagonals, in that order |
| Board.MarkedCount | Project/server/src/models/tictactoe/model.rs:122 | the number of marked cells is at most nine, and nine exactly when no cell is empty |
| Board.LineCellOnLine | Project/server/src/models/tictactoe/model.rs:97-109 | each cell the table lists for a line lies on that line |
| Board.OnLineIff | Project/server/src/models/tictactoe/model.rs:97-109 | a cell lies on line k exactly when k is its row, its column, or a diagonal it is on |
| Board.LineAfterMark | Project/server/src/models/tictactoe/model.rs:82-85 | marking an empty cell leaves the lines not through it and the decided lines unchanged, and a line it decides holds three of the new mark |
| Board.TotalAfterSet | Project/server/src/models/tictactoe/model.rs:82-85 | marking an empty cell adds the mark to the sum of all cells |
| Board.MarkedCountAfterSet | Project/server/src/game_models/tictactoe/old_tictactoeModel.rs:126-127 | marking an empty cell raises the count of marked cells by one |
| TicTacToe.MarkValue | Project/server/src/models/tictactoe/model.rs:83 | the mark is 1 for player1 and -1 for player2 |
| TicTacToe.Opponent | Project/server/src/models/tictactoe/model.rs:88-93 | the other seat is never the same seat |
| TicTacToe.OpponentInvolution | Project/server/src/models/tictactoe/model.rs:88-93 | passing the turn twice gives it back |
| TicTacToe.FirstDecidedLine | Project/server/src/models/tictactoe/model.rs:111-120 | the first line from k on, in table order, whose sum is 3 or -3; none exactly when no such line remains |
| TicTacToe.CheckedWinner | Project/server/src/models/tictactoe/model.rs:96-125 | when some line is decided, the winner is Player1 exactly when the first decided line sums to 3 and Player2 exactly when it sums to -3, whatever the old winner was; with no decided line a full board is a tie and otherwise the old winner is kept |
| TicTacToe.TicTacToeModel.constructor | Project/server/src/models/tictactoe/model.rs:25-33 | a new game has an empty board, player1 to move, a pending result and no seated names |
| TicTacToe.TicTacToeModel.AssignPlayer | Project/server/src/models/tictactoe/model.rs:35-45 | the first free seat, player1 before player2, takes the name and is returned; with both taken nothing changes and none is returned; a seated name is then found |
| TicTacToe.TicTacToeModel.GetPlayerFromName | Project/server/src/models/tictactoe/model.rs:48-56 | player1 exactly when it holds the name; player2 exactly when it does and player1 does not; none otherwise |
| TicTacToe.TicTacToeModel.CurrentPlayerName | Project/server/src/models/tictactoe/model.rs:59-64 | the name in the seat to move; with distinct names it is found back as that seat |
| TicTacToe.TicTacToeModel.WinnerName | Project/server/src/models/tictactoe/model.rs:67-73 | the winning seat's name; none while pending or tied |
| TicTacToe.TicTacToeModel.ValidateChoice | Project/server/src/models/tictactoe/model.rs:77-79 | a cell may be chosen exactly when it is empty |
| TicTacToe.TicTacToeModel.MarkSpot | Project/server/src/models/tictactoe/model.rs:82-85 | the board becomes the old one with the cell set to the mover's mark |
| TicTacToe.TicTacToeModel.NextTurn | Project/server/src/models/tictactoe/model.rs:88-93 | the turn passes to the other seat |
| TicTacToe.TicTacToeModel.CheckWinner | Project/server/src/models/tictactoe/model.rs:96-125 | the line loop leaves the winner `CheckedWinner` gives for the board and the old winner |
| TicTacToe.TicTacToeModel.LineTotal | Project/server/src/models/tictactoe/model.rs:112 | the sum of a line read from the board array is the line's sum on the board |
| TicTacToe.TicTacToeModel.IsFull | Project/server/src/models/tictactoe/model.rs:122 | true exactly when no cell is empty |
| OldTicTacToe.WinnerFor | Project/server/src/game_models/tictactoe/old_tictactoeModel.rs:135-138 | the outcome for a seat is a win for that seat |
| OldTicTacToe.OnlyLinesThroughMoveDecided | Project/server/src/game_models/tictactoe/old_tictactoeModel.rs:142-151 | on a board with no decided line, a new mark can decide only lines through it, and only for its own side |
| OldTicTacToe.WinCheckAgreesWithFullScan | Project/server/src/game_models/tictactoe/old_tictactoeModel.rs:132-166 | on a board with no decided line, checking only the lines through the latest move gives the full eight-line scan's verdict: a win for the mover, a tie on the ninth mark, else no change |
| OldTicTacToe.CompletedLineIsDecided | Project/server/src/game_models/tictactoe/old_tictactoeModel.rs:143-151 | a line through the move that holds three marks of the mover is one of the eight decided lines |
| OldTicTacToe.UndecidedThroughMove | Project/server/src/game_models/tictactoe/old_tictactoeModel.rs:143-151 | when the move's row, column and diagonals hold no three marks of the mover, no line through it does |
| OldTicTacToe.SumsAfterMark | Project/server/src/game_models/tictactoe/old_tictactoeModel.rs:114-124 | marking a cell adds the mark to its row, its column and each diagonal through it, and to no other line |
| OldTicTacToe.LastLineWithSum | Project/server/src/game_models/tictactoe/old_tictactoeModel.rs:226-257 | the last of the first n lines whose sum is v, none exactly when no such line |
| OldTicTacToe.LastLineStep | Project/server/src/game_models/tictactoe/old_tictactoeModel.rs:228-233 | one more scanned line becomes the latest match when its sum is the one sought |
| OldTicTacToe.AiTargetFocus | Project/server/src/game_models/tictactoe/old_tictactoeModel.rs:259-267 | the target named is the offence line if there is one, else the defence line, else ("", 9) |
| OldTicTacToe.TargetsIsOnLine | Project/server/src/game_models/tictactoe/old_tictactoeModel.rs:196-203 | the match on the named direction and index picks exactly the cells on that line |
| OldTicTacToe.AiTargetIsThreat | Project/server/src/game_models/tictactoe/old_tictactoeModel.rs:215-268 | the target line holds two equal marks and an empty cell, and is a line with two O marks whenever one exists |
| OldTicTacToe.ThreatHasEmptyCell | Project/server/src/game_models/tictactoe/old_tictactoeModel.rs:217-219 | a line summing to 2 or -2 has an empty cell |
| OldTicTacToe.FreeSpotsStep | Project/server/src/game_models/tictactoe/old_tictactoeModel.rs:183-185 | scanning a cell appends it to the free list exactly when it is empty |
| OldTicTacToe.FreeSpotsMembers | Project/server/src/game_models/tictactoe/old_tictactoeModel.rs:180-187 | the list holds exactly the empty cells among those scanned |
| OldTicTacToe.TargetLineHasFreeSpot | Project/server/src/game_models/tictactoe/old_tictactoeModel.rs:192-205 | the free list has a cell on the target line, so the targeted search always returns |
| OldTicTacToe.FreeSpotsExist | Project/server/src/game_models/tictactoe/old_tictactoeModel.rs:209-210 | a board that is not full has a free cell, so the random pick has one to choose |
| OldTicTacToe.EmptyGridSums | Project/server/src/game_models/tictactoe/old_tictactoeModel.rs:71-86 | the empty board has no marks and every running sum is zero |
| OldTicTacToe.TicTacToeGame.constructor | Project/server/src/game_models/tictactoe/old_tictactoeModel.rs:71-86 | a new game has an empty board, zero sums and counter, player1 to move, a pending result and the menu showing |
| OldTicTacToe.TicTacToeGame.ValidateChoice | Project/server/src/game_models/tictactoe/old_tictactoeModel.rs:90-104 | a choice is valid exactly when it is on the board and the cell is empty |
| OldTicTacToe.TicTacToeGame.MarkSpot | Project/server/src/game_models/tictactoe/old_tictactoeModel.rs:107-128 | the cell gets the mover's mark, the running sums stay the sums of their lines and the counter stays the number of marks |
| OldTicTacToe.TicTacToeGame.AddToSums | Project/server/src/game_models/tictactoe/old_tictactoeModel.rs:115-124 | the mark is added to the cell's row and column sums and to each diagonal sum through it, and to no other sum |
| OldTicTacToe.TicTacToeGame.WinCheck | Project/server/src/game_models/tictactoe/old_tictactoeModel.rs:132-166 | status 1 exactly when a line through the move holds three marks of the mover, then that seat wins; 2 exactly when none does and nine marks are down, then a tie; else 0 and nothing changes |
| OldTicTacToe.TicTacToeGame.NextTurn | Project/server/src/game_models/tictactoe/old_tictactoeModel.rs:169-174 | the turn passes to the other seat |
| OldTicTacToe.TicTacToeGame.RunningSumsAreLineSums | Project/server/src/game_models/tictactoe/old_tictactoeModel.rs:107-128 | each running sum is the sum of its line in scan order |
| OldTicTacToe.TicTacToeGame.AiCheck | Project/server/src/game_models/tictactoe/old_tictactoeModel.rs:215-268 | the named line is the last with two O marks if any, else the last with two X marks, else ("", 9) |
| OldTicTacToe.TicTacToeGame.ScanLines | Project/server/src/game_models/tictactoe/old_tictactoeModel.rs:226-257 | each of the three scans advances the offence and defence choices to the last matching line scanned so far |
| OldTicTacToe.TicTacToeGame.AiMove | Project/server/src/game_models/tictactoe/old_tictactoeModel.rs:178-211 | the move is an empty cell, and lies on the target line whenever there is one |
| OldTicTacToe.TicTacToeGame.FreeSpots | Project/server/src/game_models/tictactoe/old_tictactoeModel.rs:180-187 | the empty cells in row-major order |
| TicTacToeGameLogic.MarkValue | Project/server/src/game_models/tictactoe/mod.rs:25-30 | the mark value is 1 for X and -1 for O |
| TicTacToeGameLogic.MarkName | Project/server/src/game_models/tictactoe/mod.rs:32-37 | a mark is sent as "X" or "O" |
| TicTacToeGameLogic.MarkNameInjective | Project/server/src/game_models/tictactoe/mod.rs:32-37 | different marks are sent as different words, X as "X" |
| TicTacToeGameLogic.NextMark | Project/server/src/game_models/tictactoe/mod.rs:118-123 | a joiner gets O exactly while nobody holds O |
| TicTacToeGameLogic.MarksOfJoiners | Project/server/src/game_models/tictactoe/mod.rs:117-130 | a run of joiners receives one mark each |
| TicTacToeGameLogic.OnlyFirstJoinerIsO | Project/server/src/game_models/tictactoe/mod.rs:117-130 | starting with O free, the first joiner gets O and every later joiner X; once O is taken every joiner gets X |
| TicTacToeGameLogic.TicTacToeState.constructor | Project/server/src/game_models/tictactoe/mod.rs:72-89 | a new game is in play, X to move, no winner, empty board, zero sums and counter, the creator's id on X, O free and no listeners |
| TicTacToeGameLogic.TicTacToeState.MakeMove | Project/server/src/game_models/tictactoe/mod.rs:96-105 | refused with "Game is already over." exactly when the game is finished; otherwise accepted, and nothing changes either way |
| TicTacToeGameLogic.TicTacToeState.IsFinished | Project/server/src/game_models/tictactoe/mod.rs:133-135 | the game is finished exactly when it is no longer in play |
| TicTacToeGameLogic.TicTacToeState.GetState | Project/server/src/game_models/tictactoe/mod.rs:108-114 | the snapshot is a NOT_IMPLEMENTED error whose message carries the match id |
| TicTacToeGameLogic.TicTacToeState.AssignPlayer | Project/server/src/game_models/tictactoe/mod.rs:117-130 | the id and display name pass through; the mark is O and the id is recorded while O is free, X with nothing recorded afterwards |
| TicTacToeController.ParseUsize | Project/server/src/tictactoeController.rs:69 | a number parses only from an optional '+' and at least one digit, and its value is that of the digits (leading zeros allowed), below 2^64; all-digit text is refused only when too large |
| TicTacToeController.Decimal | Project/server/src/tictactoeController.rs:96 | a numeral is a non-empty string of digits |
| TicTacToeController.DecimalValue | Project/server/src/tictactoeController.rs:96 | the numeral of n reads back as n |
| TicTacToeController.ParseDecimal | Project/server/src/tictactoeController.rs:69 | every number below 2^64 parses back from its numeral |
| TicTacToeController.CliSpotToIndex | Project/server/src/tictactoeController.rs:68-77 | a cell exactly for a parsed number up to 8, and then the cell whose row-major number it is |
| TicTacToeController.SpotNumberRoundTrip | Project/server/src/tictactoeController.rs:68-77 | the spot number shown for a cell names that cell when typed back |
| TicTacToeController.SpotNumberInjective | Project/server/src/tictactoeController.rs:68-77 | two inputs naming the same cell carry the same number |
| TicTacToeController.ScoreAfter | Project/server/src/tictactoeController.rs:278-282 | a score stays an unsigned 32-bit value |
| TicTacToeController.RoundScoresOnce | Project/server/src/tictactoeController.rs:278-282 | below the wrap a decided round adds exactly one point in total, to the winner; a tie or an unfinished round adds none |
| TicTacToeController.Controller.constructor | Project/server/src/tictactoeController.rs:21-28 | a new controller is named "Rust TTT Controller", has scores 0 and 0, is running and is in player-against-computer mode |
| TicTacToeController.Controller.TakeTurn | Project/server/src/tictactoeController.rs:133-151 | an invalid cell leaves the game as it was; a free cell is marked for the mover, a completed line makes the mover win, a ninth mark without one ties, and otherwise the turn passes; on a board with no decided line the result is the full eight-line scan's |
| TicTacToeController.Controller.PlayFreeCell | Project/server/src/tictactoeController.rs:136-144 | marking a free cell: the mover wins on a completed line, a ninth mark without one ties, and otherwise the turn passes |
| TicTacToeController.Controller.NewGame | Project/server/src/tictactoeController.rs:253-262 | a fresh game in the controller's mode, empty, player1 to move, already in play |
| TicTacToeController.Controller.RecordRoundResult | Project/server/src/tictactoeController.rs:278-282 | the winner's score goes up by one, wrapping at 2^32; the other score and a tie leave the scores as they were |
| TicTacToeHandler.Upper | Project/server/src/routes/tictactoe_handler.rs:106 | upper-casing keeps the length and maps each character on its own |
| TicTacToeHandler.RowOf | Project/server/src/routes/tictactoe_handler.rs:106-117 | a row letter A, B or C names rows 0, 1, 2 |
| TicTacToeHandler.ColOf | Project/server/src/routes/tictactoe_handler.rs:106-117 | a column digit 1, 2 or 3 names columns 0, 1, 2 |
| TicTacToeHandler.ParseChoice | Project/server/src/routes/tictactoe_handler.rs:105-118 | a choice names a cell only when, upper-cased, it is that cell's label |
| TicTacToeHandler.ParseChoiceLabel | Project/server/src/routes/tictactoe_handler.rs:105-118 | each of the nine labels parses to its cell, in upper and in lower case |
| TicTacToeHandler.ParseChoiceInjective | Project/server/src/routes/tictactoe_handler.rs:105-118 | two choices naming the same cell are the same label up to case |
| TicTacToeHandler.SerializeBoard | Project/server/src/routes/tictactoe_handler.rs:71-81 | nine labels, the cell in row r and column c at place 3r+c, "X" for 1, "O" for -1, "" otherwise |
| TicTacToeHandler.SerializeBoardInjective | Project/server/src/routes/tictactoe_handler.rs:71-81 | different well-marked boards are sent as different label lists |
| TicTacToeHandler.FormatStatusDistinguishes | Project/server/src/routes/tictactoe_handler.rs:90-103 | the status word tells the outcome exactly and, while the game runs, the seat to move |
| TicTacToeHandler.NewGameConsistent | Project/server/src/models/tictactoe/model.rs:25-33 | a new game is a consistent state |
| TicTacToeHandler.MovePreservesConsistent | Project/server/src/routes/tictactoe_handler.rs:56-61 | a move on an empty cell keeps the state consistent (no decided line while pending, balanced marks, a win owned by its winner), and a decided outcome never changes |
| TicTacToeHandler.MarkedLines | Project/server/src/routes/tictactoe_handler.rs:57 | a decided line keeps its sum after a mark, and a line the mark decides sums to three of it |
| TicTacToeHandler.PendingMoveConsistent | Project/server/src/routes/tictactoe_handler.rs:56-61 | from a running game a move gives a consistent state |
| TicTacToeHandler.DecidedMoveConsistent | Project/server/src/routes/tictactoe_handler.rs:56-61 | a move after a win keeps the winner and a consistent state |
| TicTacToeHandler.MoveFillsOneCell | Project/server/src/routes/tictactoe_handler.rs:57 | every accepted move fills one more cell, so at most nine moves are accepted |
| TicTacToeHandler.LastMoveEndsGame | Project/server/src/routes/tictactoe_handler.rs:57-61 | the move that fills the board ends the game |
| TicTacToeHandler.HandleTicTacToe | Project/server/src/routes/tictactoe_handler.rs:6-68 | a missing room or one with another game gets the error reply; the seat names never change; an unreadable label or a marked cell changes nothing and says which; otherwise the game becomes `AfterMove` of the old one and the reply shows the board, the seat to move and the status |
| TicTacToeHandler.PlayMove | Project/server/src/routes/tictactoe_handler.rs:55-61 | an accepted move changes only the board, the turn and the winner, and leaves the game `AfterMove` of the old one |
| Uno.Pairs | Project/server/src/models/uno/model.rs:195-198 | two cards per rank listed, so twice as many cards as ranks |
| Uno.ActionRounds | Project/server/src/models/uno/model.rs:200-204 | k rounds of Skip, Reverse, DrawTwo are 3k cards |
| Uno.ColorBlock | Project/server/src/models/uno/model.rs:191-205 | one colour contributes 25 cards |
| Uno.ColorBlocks | Project/server/src/models/uno/model.rs:191-205 | the colour blocks together hold 25 cards per colour |
| Uno.WildRounds | Project/server/src/models/uno/model.rs:208-211 | k rounds of Wild and WildDrawFour are 2k cards |
| Uno.FullDeck | Project/server/src/models/uno/model.rs:181-213 | the deck has 108 cards |
| Uno.PairsCount | Project/server/src/models/uno/model.rs:195-198 | the pairs of a colour hold each listed rank of that colour twice as often as it is listed, and nothing of another colour |
| Uno.ActionRoundsCount | Project/server/src/models/uno/model.rs:200-204 | k action rounds hold each action card of that colour k times and no other card |
| Uno.OnesDistinct | Project/server/src/models/uno/model.rs:186-189 | the number ranks after 0 are 1 to 9, each once |
| Uno.OnesMembership | Project/server/src/models/uno/model.rs:186-189 | a rank is among 1 to 9 exactly when it is neither 0, an action nor a wild rank |
| Uno.OnesCount | Project/server/src/models/uno/model.rs:195 | each of 1 to 9 occurs once in the ranks after 0, every other rank not at all |
| Uno.ColorBlockCount | Project/server/src/models/uno/model.rs:191-205 | a colour block holds every card of its colour as often as the deck should and no card of another colour |
| Uno.ColorBlocksCount | Project/server/src/models/uno/model.rs:191-205 | the blocks of distinct non-wild colours hold each card of those colours as often as the deck should and no other |
| Uno.WildRoundsCount | Project/server/src/models/uno/model.rs:208-211 | k wild rounds hold k Wild and k WildDrawFour cards, both of colour Wild, and nothing else |
| Uno.ColorsFacts | Project/server/src/models/uno/model.rs:185 | the four colours are distinct and are exactly the colours other than Wild |
| Uno.FullDeckCount | Project/server/src/models/uno/model.rs:181-213 | the deck holds each card exactly as often as the rules of the deck say |
| Uno.FullDeckComposition | Project/server/src/models/uno/model.rs:181-213 | 108 cards; per colour one 0 and two of each of 1-9, Skip, Reverse and DrawTwo; four Wild and four WildDrawFour of colour Wild; every card well formed |
| Uno.BuildFullUnoDeck | Project/server/src/models/uno/model.rs:181-213 | the builder's pushes produce exactly the full deck, in order |
| Uno.AppendNumberPairs | Project/server/src/models/uno/model.rs:195-198 | the inner loop appends two of each of 1 to 9 in the colour, in order |
| Uno.AppendActionRounds | Project/server/src/models/uno/model.rs:200-204 | the inner loop appends two rounds of Skip, Reverse, DrawTwo in the colour |
| Uno.Backwards | Project/server/src/models/uno/model.rs:215-220 | reversing keeps the length |
| Uno.BackwardsMultiset | Project/server/src/models/uno/model.rs:215-220 | reversing keeps the cards |
| Uno.BackwardsIndex | Project/server/src/models/uno/model.rs:215-220 | place i of the reversal holds the card i places from the end |
| Uno.BackwardsInvolution | Project/server/src/models/uno/model.rs:215-220 | reversing twice gives the sequence back |
| Uno.DrawFromDeck | Project/server/src/models/uno/model.rs:215-220 | n pops take min(n, size) cards; the cards taken, in reverse, sit on top of what is left to make the old pile |
| Uno.DrawDetermined | Project/server/src/models/uno/model.rs:215-220 | the result of a draw is fixed by the pile and n: the top cards come off, last card first |
| Uno.DrawConserves | Project/server/src/models/uno/model.rs:215-220 | a draw loses and adds no card |
| Uno.DropTopTwice | Project/server/src/models/uno/model.rs:67 | drawing a and then b cards leaves what drawing a + b leaves |
| Uno.DealtHand | Project/server/src/models/uno/model.rs:65-69 | a dealt hand has at most seven cards, and exactly seven while the deck still holds seven cards for that seat |
| Uno.FullHandsUpToFifteenSeats | Project/server/src/models/uno/model.rs:64-69 | from a shuffled full deck, each of up to fifteen seats is dealt seven cards |
| Uno.TopCardsSplit | Project/server/src/models/uno/model.rs:65-69 | the top a + 7 cards are the top a and the top seven of what is under them |
| Uno.DealStep | Project/server/src/models/uno/model.rs:65-69 | the cards dealt to k seats are those of the first k - 1 plus seat k - 1's hand |
| Uno.DealConserves | Project/server/src/models/uno/model.rs:65-69 | the dealt hands and the remaining pile make up the shuffled deck |
| Uno.HandsBagDealt | Project/server/src/models/uno/model.rs:65-69 | the seats' hands after the deal hold exactly the top 7 cards per seat |
| Uno.HandsBagIgnores | Project/server/src/models/uno/model.rs:159-161 | changing the hand of a name that holds no seat changes no seat's cards |
| Uno.HandsBagUpdate | Project/server/src/models/uno/model.rs:159-161 | replacing one seat's hand changes the cards held by exactly that hand's difference |
| Uno.LastNonWild | Project/server/src/models/uno/model.rs:72-89 | the topmost non-wild card: non-wild, with only wild cards above it |
| Uno.FlipResult | Project/server/src/models/uno/model.rs:72-89 | the intended flip takes out one non-wild card as the discard and keeps every other card in the pile |
| Uno.FlipAfterRotated | Project/server/src/models/uno/model.rs:72-80 | while the popped cards are wild the loop as written only rotates the pile |
| Uno.WildPopRotates | Project/server/src/models/uno/model.rs:73-79 | popping a wild card and putting it back at the bottom rotates the pile one more step |
| Uno.RotatedFlipStops | Project/server/src/models/uno/model.rs:81-84 | on a non-wild top card the loop stops with that card as the discard |
| Uno.FlipResultAt | Project/server/src/models/uno/model.rs:72-89 | the intended flip is the pile rotated past the wild cards above the topmost non-wild card, with that card taken out |
| Uno.FlipStopsAt | Project/server/src/models/uno/model.rs:72-89 | when every card above a non-wild card is wild, the loop as written stops after them with that card as the discard and the wild cards at the bottom |
| Uno.FlipAfterAgrees | Project/server/src/models/uno/model.rs:72-89 | whenever the pile holds a non-wild card the loop as written gives exactly the intended flip |
| Uno.AllWildFlipNeverStops | Project/server/src/models/uno/model.rs:72-89 | on a non-empty pile of only wild cards the loop as written never stops, and keeps the same cards |
| Uno.WildRoundsAllWild | Project/server/src/models/uno/model.rs:208-211 | the wild rounds hold only wild cards |
| Uno.FifteenSeatsCanHang | Project/server/src/models/uno/model.rs:55-89 | a shuffle with the wild cards at the bottom leaves fifteen seats a pile of only wild cards, on which the flip loop never stops |
| Uno.WildCardsOfDeck | Project/server/src/models/uno/model.rs:208-211 | the deck's only wild cards are the Wild and WildDrawFour of colour Wild |
| Uno.ShuffledDeck | Project/server/src/models/uno/model.rs:61-62 | any permutation of the full deck has 108 cards with the deck's counts |
| Uno.AllWildPileSmall | Project/server/src/models/uno/model.rs:208-211 | a part of a shuffled deck made of wild cards has at most eight cards |
| Uno.FlipFindsCard | Project/server/src/models/uno/model.rs:64-89 | with at most fourteen seats the pile left after the deal holds a non-wild card, so the flip stops |
| Uno.DirStep | Project/server/src/models/uno/model.rs:170 | the unit step is 1 for a non-negative direction and -1 otherwise |
| Uno.Advanced | Project/server/src/models/uno/model.rs:171-174 | moving from a seat index always lands on a seat |
| Uno.AdvancedCompose | Project/server/src/models/uno/model.rs:172-174 | moving a seats and then b seats is moving a + b seats |
| Uno.AdvancedFullCircle | Project/server/src/models/uno/model.rs:172-174 | n moves around n seats come back to the start |
| Uno.AdvancedBack | Project/server/src/models/uno/model.rs:172-174 | k moves one way and k moves back come back to the start |
| Uno.SaturatingAdd | Project/server/src/models/uno/model.rs:136 | a u8 saturating sum: exact up to 255, else 255 |
| Uno.CanPlayOnTop | Project/server/src/models/uno/model.rs:107-111 | every wild card is playable, and so is every card of the same colour or the same rank; nothing else is |
| Uno.WildTopTakesOnlyWilds | Project/server/src/models/uno/model.rs:107-111 | on a wild discard only wild cards can be played |
| Uno.CanPlayOnTopSymmetric | Project/server/src/models/uno/model.rs:107-111 | between two non-wild cards playability is symmetric |
| Uno.NewShuffledDeck | Project/server/src/models/uno/model.rs:61-62 | a built and shuffled deck is a permutation of the full deck |
| Uno.AfterSteps | Project/server/src/models/uno/model.rs:167-176 | with seats the index lands on a seat; with none it stays put |
| Uno.HandSizes | Project/server/src/models/uno/model.rs:100-104 | one count per seat, in seat order: the seat's hand size as a u8, 0 without a hand |
| Uno.UnoModel.constructor | Project/server/src/models/uno/model.rs:40-42 | a new model has no seats, no cards, direction 1 and is not started |
| Uno.UnoModel.Reset | Project/server/src/models/uno/model.rs:44-46 | the model goes back to the new state |
| Uno.UnoModel.AddPlayer | Project/server/src/models/uno/model.rs:48-53 | a new name gets a seat at the end with an empty hand; a seated name changes nothing; seats stay distinct |
| Uno.UnoModel.CurrentPlayer | Project/server/src/models/uno/model.rs:92-94 | the name at the turn index, none exactly when the index is not a seat |
| Uno.UnoModel.PublicCounts | Project/server/src/models/uno/model.rs:100-104 | one count per seat, in seat order: the seat's hand size as a u8 |
| Uno.UnoModel.AdvanceTurn | Project/server/src/models/uno/model.rs:167-176 | the one-seat-at-a-time loop lands where moving all steps at once does; no seats, no change |
| Uno.UnoModel.ApplyNumberPlay | Project/server/src/models/uno/model.rs:113-116 | the card goes on the discard and the turn moves one seat |
| Uno.UnoModel.ApplySkip | Project/server/src/models/uno/model.rs:118-121 | the card goes on the discard and the turn moves two seats |
| Uno.UnoModel.ApplyReverse | Project/server/src/models/uno/model.rs:123-132 | with two seats the turn moves two seats and the direction is kept; otherwise the direction flips and the turn moves one seat the new way |
| Uno.UnoModel.ApplyDrawTwo | Project/server/src/models/uno/model.rs:134-138 | the card goes on the discard, the penalty grows by two (saturating at 255) and the turn moves one seat |
| Uno.UnoModel.ApplyWild | Project/server/src/models/uno/model.rs:140-144 | the card goes on the discard, the colour is recorded as a hint and the turn moves one seat |
| Uno.UnoModel.ApplyWildDrawFour | Project/server/src/models/uno/model.rs:146-151 | as a wild, and the penalty grows by four (saturating at 255) |
| Uno.UnoModel.ForceDrawAndSkip | Project/server/src/models/uno/model.rs:154-165 | no penalty, no change; otherwise the seat to move takes the top cards of the pile (as many as are left), the penalty clears and the turn moves one seat |
| Uno.UnoModel.FlipFirstNonWild | Project/server/src/models/uno/model.rs:72-89 | the intended flip when the pile holds a non-wild card; otherwise the pile and the discard are as before |
| Uno.UnoModel.DealSevenEach | Project/server/src/models/uno/model.rs:64-69 | each seat, in seat order, gets the next seven cards from the top (fewer when the pile runs out) and the pile loses them |
| Uno.UnoModel.DealAndFlip | Project/server/src/models/uno/model.rs:64-89 | the deal gives each seat its dealt hand, then the flip; when it stops no card is lost |
| Uno.UnoModel.Start | Project/server/src/models/uno/model.rs:55-90 | the game is `StartedFrom` a shuffled full deck: turn, direction, penalty and hint are reset, each seat holds its dealt hand, the discard is the intended flip, and every card of the deck is on the table |
| Uno.DealOneSeat | Project/server/src/models/uno/model.rs:66-68 | seven pops from the pile left after i seats are seat i's hand and leave the pile for seat i + 1 |
| Uno.StartConserves | Project/server/src/models/uno/model.rs:55-89 | after the deal and the flip every card of the shuffled deck is in the pile, a hand or the discard |
| Uno.PenaltyDrawConserves | Project/server/src/models/uno/model.rs:157-161 | a penalty draw only moves cards from the pile to one seat's hand |
| UnoHandler.ParseChoose | Project/server/src/routes/uno_handler.rs:113-121 | a colour only for one of the four exact names, and then the one with that name; never Wild |
| UnoHandler.ParseChooseColorName | Project/server/src/routes/uno_handler.rs:113-137 | each playable colour's published name parses back to it; "Wild" parses to nothing |
| UnoHandler.BuildPublicUpdate | Project/server/src/routes/uno_handler.rs:125-144 | names the room, never carries a hand, copies the seats, turn index, direction, discard, penalty and winner from the game, publishes one u8 hand size per seat in seat order, and a colour exactly when one was chosen |
| UnoHandler.BuildPrivateHand | Project/server/src/routes/uno_handler.rs:146-156 | carries only the room id and the player's own hand, empty for a player without one |
| UnoHandler.PublicUpdateHidesCards | Project/server/src/routes/uno_handler.rs:125-144 | two games that differ only in which cards the hands hold, not in their sizes, publish the same snapshot |
| UnoHandler.ChosenColorRoundTrip | Project/server/src/routes/uno_handler.rs:113-138 | a published colour choice parses back to the model's choice, unless it is Wild |
| UnoHandler.RemoveFirst | Project/server/src/routes/uno_handler.rs:63-70 | a hand without the card is unchanged; otherwise one card shorter |
| UnoHandler.Position | Project/server/src/routes/uno_handler.rs:65 | the first place the card is held, none exactly when it is not held |
| UnoHandler.RemoveAtFirst | Project/server/src/routes/uno_handler.rs:65-66 | removing at the first place the card is held is removing its first copy |
| UnoHandler.TakeFromHand | Project/server/src/routes/uno_handler.rs:64-70 | the player's hand loses the first copy of the card; a player without a hand changes nothing |
| UnoHandler.ApplyRankTo | Project/server/src/routes/uno_handler.rs:72-85 | the card goes on the discard; Skip moves the turn two seats, Reverse flips the direction (two seats with two players), DrawTwo adds two to the penalty, a wild with a parsed colour records it (WildDrawFour also adds four), a number moves one seat: `ApplyRank` |
| UnoHandler.ApplyActionRankTo | Project/server/src/routes/uno_handler.rs:73-75 | Skip moves the turn two seats, Reverse flips the direction (two seats with two players), DrawTwo adds two to the penalty: `ApplyRank` with no colour |
| UnoHandler.ApplyWildRankTo | Project/server/src/routes/uno_handler.rs:76-83 | a wild card with a parsed colour takes the wild effect; without one nothing happens |
| UnoHandler.PlayCardOn | Project/server/src/routes/uno_handler.rs:57-95 | a playable card leaves the player's hand (its first copy), takes its rank's effect, and a player left with no card wins; an unplayable card changes nothing: `PlayCard` |
| UnoHandler.DrawCardOn | Project/server/src/routes/uno_handler.rs:43-50 | the top card of the pile goes to the player's hand; an empty pile changes nothing, and a player without a hand loses the card: `DrawCard` |
| UnoHandler.StartOn | Project/server/src/routes/uno_handler.rs:39-41 | the game is started from a shuffled full deck as `StartedFrom` says (resets, dealt hands, the intended flip, every card on the table), with the seats and the winner kept |
| UnoHandler.StepOn | Project/server/src/routes/uno_handler.rs:43-107 | draw, pass and play take their effects and every other action changes nothing: `Step` |
| UnoHandler.HandleUno | Project/server/src/routes/uno_handler.rs:10-111 | a missing room or one hosting another game gets the empty snapshot and changes nothing; otherwise start leaves the game `StartedFrom` a shuffled full deck with the seats and winner kept, every other action changes the game as `Step` says, and the reply is the public snapshot of the new state |
| UnoHandler.DrawCardConserves | Project/server/src/routes/uno_handler.rs:43-48 | a seated player's draw moves one card from the pile into their hand; no card appears or vanishes |
| UnoHandler.DrawByOutsiderLosesCard | Project/server/src/routes/uno_handler.rs:43-48 | a player without a hand who draws takes the top card off the pile and it is gone |
| UnoHandler.RemoveFirstTakesOne | Project/server/src/routes/uno_handler.rs:65-66 | removing the first copy of a held card takes exactly that card out |
| UnoHandler.PlayCardTakesCard | Project/server/src/routes/uno_handler.rs:62-70 | playing a playable held card takes exactly that card from the player's hand and no other hand changes |
| UnoHandler.ApplyRankKeepsHands | Project/server/src/routes/uno_handler.rs:72-85 | the effect of a rank changes no hand, no seat and not the winner |
| UnoHandler.UncolouredWildIsDropped | Project/server/src/routes/uno_handler.rs:76-83 | a wild card played without a parsable colour leaves the hand but not the discard, and the turn stays |
| UnoHandler.WinnerEmptiedHand | Project/server/src/routes/uno_handler.rs:87-92 | the winner only ever changes to the player who just played a playable card and holds no card |
| UnoHandler.UnplayableChangesNothing | Project/server/src/routes/uno_handler.rs:57-62 | a play without a card or with an unplayable one changes nothing |
| UnoHandler.PassesAdvance | Project/server/src/routes/uno_handler.rs:52-55 | k passes move the turn k seats in the current direction |
| UnoHandler.PassesFullCircle | Project/server/src/routes/uno_handler.rs:52-55 | once every seat has passed, the turn is back where it started |
| UnoClient.GetActiveColorForTop | Project/client/src/pages/Uno.tsx:339-347 | no discard, no colour; a non-wild top gives its own colour; a wild top gives the chosen colour exactly when one is set |
| UnoClient.IsMyTurn | Project/client/src/pages/Uno.tsx:333-337 | the turn is the player's exactly when the game has started and the seat at the current index is theirs, so the player is seated |
| UnoClient.TurnBelongsToOne | Project/client/src/pages/Uno.tsx:333-337 | at most one name has the turn |
| UnoClient.CanPlayCard | Project/client/src/pages/Uno.tsx:349-369 | a card is offered only on the player's turn with a discard showing and no penalty pending; then every wild card is, and a non-wild card exactly when its colour is the active colour or, on a non-wild top, its rank matches |
| UnoClient.ApplySnapshot | Project/client/src/pages/Uno.tsx:84-123 | a message's seats, index, direction, penalty, counts and hand replace the old ones when present and are kept otherwise; new seats also set whether the game has started (any seats); the top card, colour and winner are always replaced |
| UnoClient.PublicUpdateOverwrites | Project/client/src/pages/Uno.tsx:84-123 | after a public update two clients hold the same state apart from their own hands |
| UnoClient.ColorNameInjective | Project/server/src/routes/uno_handler.rs:132-138 | different colours are published under different names |
| UnoClient.IsMyTurnAgreesWithServer | Project/client/src/pages/Uno.tsx:333-337 | after a snapshot of a started game the client's turn test holds exactly when the server's current seat is the player's |
| UnoClient.ClientMatchesServerOnPlainTop | Project/client/src/pages/Uno.tsx:349-369 | on a non-wild top, on the player's turn with no penalty pending, the client offers exactly the cards the server accepts |
| UnoClient.OfferedCardFollowsActiveColor | Project/client/src/pages/Uno.tsx:339-369 | a non-wild card the client offers has the active colour or the top card's rank |
| UnoClient.ClientServerDisagreeOnWildTop | Project/client/src/pages/Uno.tsx:361-365 | on a wild top every non-wild card the client offers is refused by the server's rule as written |
| UnoClient.RedFiveAfterWild | Project/client/src/pages/Uno.tsx:361-365 | with Red chosen on a Wild, the client offers a red 5 that the server refuses |
| UnoClient.ColorLockExtendsServerRule | Project/server/src/models/uno/model.rs:106-111 | on a non-wild top the colour-locked rule is the server's rule |
| UnoClient.CanPlayWithColorLock | Project/client/src/pages/Uno.tsx:349-369 | the corrected rule: every wild card; on a non-wild top exactly the server's rule; on a wild top a non-wild card exactly when its colour is the chosen one |
| UnoClient.ColorLockAgreesWithClient | Project/client/src/pages/Uno.tsx:349-369 | after a snapshot, on the player's turn with no penalty pending, the client offers exactly the cards the colour-locked rule accepts, on every top |

## Left out

- Network I/O, JSON (de)serialisation, async tasks and locks: each handler step is one atomic update of the registry, and the messages it would send are returned as values. Outbound channels are natural-number ids.
- Randomness: `rand`/`thread_rng` are not modelled. The Uno shuffle is any permutation of the full deck, the old engine's random AI move is any free cell, and the match id's four letter draws are a parameter.
- Project/server/src/types/appstate.rs is not part of this model. The room registry is modelled from its uses, as `Rooms.AppState`.
- Rooms.GameType: the room handler's game enum has no Uno variant. The model adds `UnoGame` and `NoGame` so that one registry serves every handler.
- Rooms.GameRoom: chat (Project/server/src/routes/chat_manager.rs and the chat routes) is not part of this model; the room's chat log is carried as a field and no member writes it.
- GameRoomHandler: the member list behind the `RwLock` is a sequence, and concurrent joins and leaves are not interleaved.
- Matchmaker.BroadcastState: the snapshot fills `board` and `turn` from the match state. The source's message at Project/server/src/matchmaker.rs:46-50 names only the id, the players and the status, although the message type at Project/server/src/types.rs:81-88 also has `board` and `turn`. The channel's capacity of 64 is kept only as a field, and no backlog is modelled.
- Matchmaker.NewMatchId: the random letter draws are a parameter.
- TicTacToeGameLogic: `get_listeners` is left out. The `move_data` of a move is ignored, and the source only prints it. A third joiner is given X, as the source does.
- TicTacToeController: `usize` is taken as 64-bit. Win counters are `u32` and wrap modulo 2^32 here, where a Rust debug build would panic. Terminal menus and board drawing are left out.
- OldTicTacToe: the `i8` line sums and the `u8` counters are not bounded, because their values stay within ±3 and 0..9.
- OldTicTacToe.TicTacToeGame.MarkSpot: requires an empty cell, which every caller in the source checks first.
- OldTicTacToe.TicTacToeGame.AiMove: the random fallback requires a free cell, and it picks any free cell rather than a uniformly random one.
- OldTicTacToe: `draw_board`, `handle_turn` and the console loop are left out, since they are I/O.
- TicTacToeHandler.ParseChoice: upper-casing maps ASCII letters only. This gives the same result as full Unicode upper-casing, because no other character upper-cases to `A`–`C` or `1`–`3`.
- TicTacToeHandler: moves after the game is over are accepted, as in the source. DecidedMoveConsistent states what the winner reply then says.
- RockPaperScissors.Lower: lower-casing maps ASCII letters only. A non-ASCII letter that Rust folds to an ASCII one (the Kelvin sign U+212A folds to `k`) is not folded here, so a word spelled with one is not recognised.
- RockPaperScissors.Trim: whitespace is the Unicode White_Space set that Rust's `trim` uses.
- RockPaperScissors.FromStr: has no contract of its own. ChoiceOfWord and FromStrAsStr state what it accepts.
- UnoClient.ApplySnapshot: an absent top card, colour or winner is taken to arrive as JSON `null`, which the client stores; the server's payload type and its serialisation settings are not part of this model.
- UnoHandler: like the source, the handler checks neither whose turn it is nor whether the sender is seated.
  - The pending-draw block at Project/server/src/routes/uno_handler.rs:32-36 changes nothing, and `force_draw_and_skip` is never called from the handler.
  - A draw by a name without a hand takes the card off the deck and drops it.
  - A wild played without a colour is taken out of the hand and goes nowhere.
- UnoHandler: the `i32` cast of `current_idx` in the public update is not modelled, because indices stay far below 2^31.
- Uno.UnoModel.ForceDrawAndSkip: modelled, but no handler path reaches it.
- UnoClient: rendering, sockets and React state are left out. Only the pure rule helpers are modelled.

## Findings

| source | as written | input that shows it | evidently intended | confidence | as-written member | corrected member |
|---|---|---|---|---|---|---|
| Project/server/src/models/uno/model.rs:71-89 | `start` pops cards and puts every wild back at the bottom until it finds a non-wild. When everything left after dealing is wild, it never stops. | 15 seats deal 105 cards. If the shuffle leaves the 8 wilds at the bottom (the deck `FullDeck()[105..] + FullDeck()[..105]`), the remaining 3 cards are all wild. | Stop after one pass over the remaining deck. When no non-wild card is left, keep the discard as it was, as the loop already does on an empty deck. | not executed | Uno.AllWildFlipNeverStops, Uno.FifteenSeatsCanHang | Uno.UnoModel.FlipFirstNonWild, Uno.FlipResult, Uno.FlipAfterAgrees, Uno.FlipFindsCard |
| Project/server/src/models/uno/model.rs:107-111 | `can_play_on_top` matches only colour or rank. A wild top has colour Wild, so after a wild only another wild can ever be played, even once a colour has been chosen. | Top Wild (colour Wild), chosen colour Red, card Red 5: the server refuses it, but the client (Project/client/src/pages/Uno.tsx:349-369) offers it as playable. | On a wild top, a non-wild card is playable exactly when its colour is the chosen colour, which is the client's rule. The server's comments (model.rs:32, :106) call the chosen colour a non-binding hint and the rule one without a colour lock. That is meant against restricting colour or rank plays, not for a stall: as written, once a wild is on top nothing but another wild can ever follow it. | not executed | Uno.WildTopTakesOnlyWilds, UnoClient.ClientServerDisagreeOnWildTop, UnoClient.RedFiveAfterWild | UnoClient.ColorLockExtendsServerRule, UnoClient.ColorLockAgreesWithClient |
