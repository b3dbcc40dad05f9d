/**
 * The browser side of Uno: the state a client keeps from the server's
 * snapshots, and the rules it uses to decide whose turn it is and which
 * cards to offer. Colours travel as their names; a card is compared with
 * another field by field.
 */
module UnoClient {
  import opened Wrappers
  import opened Uno
  import UnoHandler

  datatype UnoGameState = UnoGameState(
    players: seq<string>, currentIdx: int, direction: int, topDiscard: Option<UnoCard>,
    chosenColor: Option<string>, pendingDraw: int, publicCounts: seq<int>,
    hand: seq<UnoCard>, winner: Option<string>, gameStarted: bool)

  /** An absent or empty colour name counts as no choice at all. */
  predicate HasChoice(chosen: Option<string>) {
    chosen.Some? && chosen.value != ""
  }

  /**
   * Whether the seat whose turn it is belongs to `me`: only in a started
   * game, and an index past the seats names nobody.
   */
  function IsMyTurn(st: UnoGameState, me: string): (mine: bool)
    ensures mine ==> st.gameStarted && me in st.players
    ensures mine <==> st.gameStarted && 0 <= st.currentIdx < |st.players| && st.players[st.currentIdx] == me
  {
    if !st.gameStarted || |st.players| == 0 then false
    else 0 <= st.currentIdx < |st.players| && st.players[st.currentIdx] == me
  }

  /** At most one name has the turn. */
  lemma TurnBelongsToOne(st: UnoGameState, a: string, b: string)
    requires IsMyTurn(st, a) && IsMyTurn(st, b)
    ensures a == b
  {
  }

  /** The colour to follow: the chosen one on a wild top, else the top card's own colour. */
  function GetActiveColorForTop(st: UnoGameState): (c: Option<string>)
    ensures st.topDiscard.None? ==> c.None?
    ensures st.topDiscard.Some? && !IsWildRank(st.topDiscard.value.rank) ==>
      c == Some(UnoHandler.ColorName(st.topDiscard.value.color))
    ensures st.topDiscard.Some? && IsWildRank(st.topDiscard.value.rank) ==>
      (c.Some? <==> HasChoice(st.chosenColor)) && (c.Some? ==> c == st.chosenColor)
  {
    match st.topDiscard
    case None => None
    case Some(top) =>
      if IsWildRank(top.rank) then (if HasChoice(st.chosenColor) then st.chosenColor else None)
      else Some(UnoHandler.ColorName(top.color))
  }

  /**
   * Whether the client offers `card`: only on the player's own turn, with a
   * discard showing and no penalty pending; a wild card always; on a wild
   * top only a card of the chosen colour; otherwise colour or rank must match.
   */
  function CanPlayCard(st: UnoGameState, me: string, card: UnoCard): (ok: bool)
    ensures ok ==> IsMyTurn(st, me) && st.topDiscard.Some? && st.pendingDraw <= 0
    ensures IsMyTurn(st, me) && st.topDiscard.Some? && st.pendingDraw <= 0 && IsWildRank(card.rank) ==> ok
    ensures IsMyTurn(st, me) && st.topDiscard.Some? && st.pendingDraw <= 0 && !IsWildRank(card.rank) ==>
      (ok <==> GetActiveColorForTop(st) == Some(UnoHandler.ColorName(card.color))
               || (!IsWildRank(st.topDiscard.value.rank) && card.rank == st.topDiscard.value.rank))
  {
    if !IsMyTurn(st, me) then false
    else if st.topDiscard.None? then false
    else if st.pendingDraw > 0 then false
    else if IsWildRank(card.rank) then true
    else if IsWildRank(st.topDiscard.value.rank) then
      HasChoice(st.chosenColor) && UnoHandler.ColorName(card.color) == st.chosenColor.value
    else card.color == st.topDiscard.value.color || card.rank == st.topDiscard.value.rank
  }

  lemma ColorNameInjective(a: UnoColor, b: UnoColor)
    ensures UnoHandler.ColorName(a) == UnoHandler.ColorName(b) <==> a == b
  {
  }

  /**
   * The state after the client receives a message: each counter, list and
   * the hand are taken from the message when it carries them and kept
   * otherwise, and a new seat list also decides whether the game has
   * started (it has any seats); the top card, the colour and the winner are
   * always taken from the message, an absent one clearing the old value.
   */
  function ApplySnapshot(prev: UnoGameState, msg: UnoHandler.UnoPayloadToClient): (st: UnoGameState)
    ensures msg.players.Some? ==> st.players == msg.players.value && (st.gameStarted <==> |msg.players.value| > 0)
    ensures msg.players.None? ==> st.players == prev.players && st.gameStarted == prev.gameStarted
    ensures st.currentIdx == if msg.currentIdx.Some? then msg.currentIdx.value else prev.currentIdx
    ensures st.direction == if msg.direction.Some? then msg.direction.value else prev.direction
    ensures st.pendingDraw == if msg.pendingDraw.Some? then msg.pendingDraw.value else prev.pendingDraw
    ensures st.publicCounts == if msg.publicCounts.Some? then msg.publicCounts.value else prev.publicCounts
    ensures st.hand == if msg.hand.Some? then msg.hand.value else prev.hand
    ensures st.topDiscard == msg.topDiscard && st.chosenColor == msg.chosenColor && st.winner == msg.winner
  {
    var players := if msg.players.Some? then msg.players.value else prev.players;
    var started := if msg.players.Some? then |msg.players.value| > 0 else prev.gameStarted;
    UnoGameState(players,
      if msg.currentIdx.Some? then msg.currentIdx.value else prev.currentIdx,
      if msg.direction.Some? then msg.direction.value else prev.direction,
      msg.topDiscard, msg.chosenColor,
      if msg.pendingDraw.Some? then msg.pendingDraw.value else prev.pendingDraw,
      if msg.publicCounts.Some? then msg.publicCounts.value else prev.publicCounts,
      if msg.hand.Some? then msg.hand.value else prev.hand,
      msg.winner, started)
  }

  /**
   * A public update replaces every public field: two clients that receive
   * it hold the same state apart from their own hands.
   */
  lemma PublicUpdateOverwrites(a: UnoGameState, b: UnoGameState, gameId: string, m: UnoModel)
    ensures ApplySnapshot(a, UnoHandler.BuildPublicUpdate(gameId, m))
      == ApplySnapshot(b, UnoHandler.BuildPublicUpdate(gameId, m)).(hand := a.hand)
  {
  }

  /** After a snapshot of a started game, the client's turn test agrees with the server's current seat. */
  lemma IsMyTurnAgreesWithServer(gameId: string, m: UnoModel, prev: UnoGameState, me: string)
    requires m.Valid()
    ensures IsMyTurn(ApplySnapshot(prev, UnoHandler.BuildPublicUpdate(gameId, m)), me) <==> m.CurrentPlayer() == Some(me)
  {
  }

  /**
   * On a non-wild top, on the player's turn and with no penalty pending,
   * the client offers exactly the cards the server accepts.
   */
  lemma ClientMatchesServerOnPlainTop(st: UnoGameState, me: string, card: UnoCard)
    requires IsMyTurn(st, me) && st.pendingDraw <= 0
    requires st.topDiscard.Some? && !IsWildRank(st.topDiscard.value.rank)
    ensures CanPlayCard(st, me, card) <==> CanPlayOnTop(st.topDiscard.value, card)
  {
  }

  /** Whatever the top, a card the client offers is one of the same colour as the active colour, or a wild, or a rank match. */
  lemma OfferedCardFollowsActiveColor(st: UnoGameState, me: string, card: UnoCard)
    requires CanPlayCard(st, me, card) && !IsWildRank(card.rank)
    ensures GetActiveColorForTop(st) == Some(UnoHandler.ColorName(card.color))
      || card.rank == st.topDiscard.value.rank
  {
  }

  /**
   * On a wild top the server, as written, takes only wild cards, while the
   * client offers every card of the chosen colour: each such well-formed
   * card the client offers the server turns down.
   */
  lemma ClientServerDisagreeOnWildTop(st: UnoGameState, me: string, card: UnoCard)
    requires CanPlayCard(st, me, card)
    requires WellFormed(st.topDiscard.value) && IsWildRank(st.topDiscard.value.rank)
    requires WellFormed(card) && !IsWildRank(card.rank)
    ensures !CanPlayOnTop(st.topDiscard.value, card)
  {
    WildTopTakesOnlyWilds(st.topDiscard.value, card);
  }

  /** A concrete case: Red was chosen on a Wild, and the client offers a red 5 the server refuses. */
  lemma RedFiveAfterWild()
    ensures var st := UnoGameState(["ann", "bob"], 0, 1, Some(UnoCard(UnoColor.Wild, UnoRank.Wild)),
      Some("Red"), 0, [7, 7], [UnoCard(UnoColor.Red, UnoRank.N5)], None, true);
      CanPlayCard(st, "ann", UnoCard(UnoColor.Red, UnoRank.N5))
      && !CanPlayOnTop(UnoCard(UnoColor.Wild, UnoRank.Wild), UnoCard(UnoColor.Red, UnoRank.N5))
  {
  }

  /**
   * The rule both sides evidently mean: any wild card; on a wild top a card
   * of the chosen colour; otherwise a colour or rank match.
   */
  function CanPlayWithColorLock(top: UnoCard, chosen: Option<UnoColor>, card: UnoCard): (ok: bool)
    ensures IsWildRank(card.rank) ==> ok
    ensures !IsWildRank(top.rank) ==> (ok <==> CanPlayOnTop(top, card))
    ensures IsWildRank(top.rank) && !IsWildRank(card.rank) ==> (ok <==> chosen == Some(card.color))
  {
    IsWildRank(card.rank)
    || (if IsWildRank(top.rank) then chosen.Some? && card.color == chosen.value
        else card.color == top.color || card.rank == top.rank)
  }

  /** The colour-locked rule is the server's rule except on a wild top. */
  lemma ColorLockExtendsServerRule(top: UnoCard, chosen: Option<UnoColor>, card: UnoCard)
    requires !IsWildRank(top.rank)
    ensures CanPlayWithColorLock(top, chosen, card) <==> CanPlayOnTop(top, card)
  {
  }

  /**
   * After a snapshot of a started game, on the player's turn with no
   * penalty pending, the client offers exactly the cards the colour-locked
   * rule accepts, on every top.
   */
  lemma ColorLockAgreesWithClient(gameId: string, m: UnoModel, prev: UnoGameState, me: string, card: UnoCard)
    requires m.Valid() && m.discardTop.Some? && m.pendingDraw == 0 && m.CurrentPlayer() == Some(me)
    requires m.chosenColor.Some? ==> !m.chosenColor.value.Wild?
    ensures CanPlayCard(ApplySnapshot(prev, UnoHandler.BuildPublicUpdate(gameId, m)), me, card)
      <==> CanPlayWithColorLock(m.discardTop.value, m.chosenColor, card)
  {
    IsMyTurnAgreesWithServer(gameId, m, prev, me);
    if m.chosenColor.Some? {
      ColorNameInjective(card.color, m.chosenColor.value);
    }
  }
}
