/**
 * The Uno message handler: it looks up the room, applies one action of one
 * player to the room's Uno game and answers with the public snapshot.
 * The snapshot never carries a hand; hands go out one by one as private
 * messages.
 */
module UnoHandler {
  import opened Wrappers
  import opened Uno
  import opened Rooms

  datatype UnoPayloadToServer = UnoPayloadToServer(
    gameId: string, playerName: string, action: string,
    card: Option<UnoCard>, chooseColor: Option<string>)

  datatype UnoPayloadToClient = UnoPayloadToClient(
    gameId: string, players: Option<seq<string>>, currentIdx: Option<int>, direction: Option<int>,
    topDiscard: Option<UnoCard>, chosenColor: Option<string>, pendingDraw: Option<nat>,
    publicCounts: Option<seq<nat>>, hand: Option<seq<UnoCard>>, winner: Option<string>)

  /** A reply that names the room and carries nothing else. */
  function EmptySnapshot(gameId: string): UnoPayloadToClient {
    UnoPayloadToClient(gameId, None, None, None, None, None, None, None, None, None)
  }

  /** The name under which a colour is published. */
  function ColorName(c: UnoColor): string {
    match c
    case Red => "Red"
    case Yellow => "Yellow"
    case Green => "Green"
    case Blue => "Blue"
    case Wild => "Wild"
  }

  /** The colour a wild play asks for: one of the four exact names, nothing otherwise. */
  function ParseChoose(s: Option<string>): (c: Option<UnoColor>)
    ensures c.Some? ==> !c.value.Wild? && s == Some(ColorName(c.value))
  {
    if s == Some("Red") then Some(UnoColor.Red)
    else if s == Some("Yellow") then Some(UnoColor.Yellow)
    else if s == Some("Green") then Some(UnoColor.Green)
    else if s == Some("Blue") then Some(UnoColor.Blue)
    else None
  }

  /** Every playable colour's published name parses back to it; "Wild" does not parse. */
  lemma ParseChooseColorName(c: UnoColor)
    ensures ParseChoose(Some(ColorName(c))) == if c.Wild? then None else Some(c)
  {
  }

  /** The snapshot every member of the room receives after an action. */
  function BuildPublicUpdate(gameId: string, m: UnoModel): (msg: UnoPayloadToClient)
    reads m
    ensures msg.gameId == gameId && msg.hand == None
    ensures msg.publicCounts.Some? && |msg.publicCounts.value| == |m.players|
    ensures forall i :: 0 <= i < |m.players| ==>
      msg.publicCounts.value[i] == (if m.players[i] in m.hands then |m.hands[m.players[i]]| else 0) % 256
    ensures msg.chosenColor.Some? <==> m.chosenColor.Some?
    ensures msg.players == Some(m.players) && msg.currentIdx == Some(m.currentIdx as int)
      && msg.direction == Some(m.direction) && msg.topDiscard == m.discardTop
      && msg.pendingDraw == Some(m.pendingDraw) && msg.winner == m.winner
  {
    UnoPayloadToClient(gameId, Some(m.players), Some(m.currentIdx), Some(m.direction), m.discardTop,
      if m.chosenColor.Some? then Some(ColorName(m.chosenColor.value)) else None,
      Some(m.pendingDraw), Some(m.PublicCounts()), None, m.winner)
  }

  /** The message only `player` receives: their own hand and nothing else. */
  function BuildPrivateHand(gameId: string, m: UnoModel, player: string): (msg: UnoPayloadToClient)
    reads m
    ensures msg == EmptySnapshot(gameId).(hand := msg.hand)
    ensures msg.hand == Some(if player in m.hands then m.hands[player] else [])
  {
    EmptySnapshot(gameId).(hand := Some(if player in m.hands then m.hands[player] else []))
  }

  /**
   * The public snapshot hides the cards: two games that agree on everything
   * but the cards in the hands, and whose hands have the same sizes, give
   * the same snapshot.
   */
  lemma PublicUpdateHidesCards(gameId: string, m1: UnoModel, m2: UnoModel)
    requires m1.players == m2.players && m1.currentIdx == m2.currentIdx && m1.direction == m2.direction
    requires m1.discardTop == m2.discardTop && m1.chosenColor == m2.chosenColor
    requires m1.pendingDraw == m2.pendingDraw && m1.winner == m2.winner
    requires forall p :: p in m1.players ==> (p in m1.hands <==> p in m2.hands)
    requires forall p :: p in m1.players && p in m1.hands ==> |m1.hands[p]| == |m2.hands[p]|
    ensures BuildPublicUpdate(gameId, m1) == BuildPublicUpdate(gameId, m2)
  {
    var c1, c2 := m1.PublicCounts(), m2.PublicCounts();
    assert |c1| == |c2|;
    forall i | 0 <= i < |c1|
      ensures c1[i] == c2[i]
    {
      assert m1.players[i] in m1.players;
    }
    assert c1 == c2;
  }

  /** A published colour choice parses back to the model's choice, unless that choice is Wild. */
  lemma ChosenColorRoundTrip(gameId: string, m: UnoModel)
    requires m.chosenColor.Some?
    ensures ParseChoose(BuildPublicUpdate(gameId, m).chosenColor) ==
      if m.chosenColor.value.Wild? then None else m.chosenColor
  {
    ParseChooseColorName(m.chosenColor.value);
  }

  // ---------------------------------------------------------------------
  // The state an action reads and writes, as a value
  // ---------------------------------------------------------------------

  datatype UnoView = UnoView(
    players: seq<string>, currentIdx: nat, direction: int, deck: seq<UnoCard>,
    discardTop: Option<UnoCard>, chosenColor: Option<UnoColor>, pendingDraw: nat,
    hands: map<string, seq<UnoCard>>, winner: Option<string>, started: bool)

  function ViewOf(m: UnoModel): UnoView
    reads m
  {
    UnoView(m.players, m.currentIdx, m.direction, m.deck, m.discardTop, m.chosenColor,
      m.pendingDraw, m.hands, m.winner, m.started)
  }

  /** The draw pile and every hand. */
  function HeldCards(v: UnoView): multiset<UnoCard> {
    multiset(v.deck) + HandsBag(v.players, v.hands)
  }

  /** `pass_turn`: one step in the current direction, whatever is pending. */
  function PassTurn(v: UnoView): UnoView {
    v.(currentIdx := AfterSteps(v.currentIdx, |v.players|, v.direction, 1))
  }

  /** `draw_card`: the top card of the pile goes to the player's hand; a player without a hand loses it. */
  function DrawCard(v: UnoView, p: string): UnoView {
    if v.deck == [] then v
    else
      var c := v.deck[|v.deck| - 1];
      v.(deck := v.deck[..|v.deck| - 1],
         hands := if p in v.hands then v.hands[p := v.hands[p] + [c]] else v.hands)
  }

  /** The hand without the first copy of `card`; unchanged when it holds none. */
  function RemoveFirst(hand: seq<UnoCard>, card: UnoCard): (r: seq<UnoCard>)
    ensures card !in hand ==> r == hand
    ensures card in hand ==> |r| == |hand| - 1
  {
    if hand == [] then []
    else if hand[0] == card then hand[1..]
    else [hand[0]] + RemoveFirst(hand[1..], card)
  }

  /** The effect of a playable card's rank, as the `apply_*` operations define it. */
  function ApplyRank(v: UnoView, card: UnoCard, chosen: Option<UnoColor>): UnoView {
    var n := |v.players|;
    match card.rank
    case Skip => v.(discardTop := Some(card), currentIdx := AfterSteps(v.currentIdx, n, v.direction, 2))
    case Reverse =>
      if n == 2 then v.(discardTop := Some(card), currentIdx := AfterSteps(v.currentIdx, 2, v.direction, 2))
      else v.(discardTop := Some(card), direction := -v.direction,
              currentIdx := AfterSteps(v.currentIdx, n, -v.direction, 1))
    case DrawTwo =>
      v.(discardTop := Some(card), pendingDraw := SaturatingAdd(v.pendingDraw, 2),
         currentIdx := AfterSteps(v.currentIdx, n, v.direction, 1))
    case Wild =>
      if chosen.None? then v
      else v.(discardTop := Some(card), chosenColor := chosen,
              currentIdx := AfterSteps(v.currentIdx, n, v.direction, 1))
    case WildDrawFour =>
      if chosen.None? then v
      else v.(discardTop := Some(card), chosenColor := chosen,
              pendingDraw := SaturatingAdd(v.pendingDraw, 4),
              currentIdx := AfterSteps(v.currentIdx, n, v.direction, 1))
    case _ => v.(discardTop := Some(card), currentIdx := AfterSteps(v.currentIdx, n, v.direction, 1))
  }

  /** Whether `card` may go on the current discard: there must be one, and the classic rule must allow it. */
  predicate Playable(v: UnoView, card: UnoCard) {
    v.discardTop.Some? && CanPlayOnTop(v.discardTop.value, card)
  }

  /**
   * `play_card`: a playable card leaves the player's hand (its first copy,
   * if they hold one), its rank takes effect, and a player left with an
   * empty hand wins. An unplayable card changes nothing.
   */
  function PlayCard(v: UnoView, p: string, card: UnoCard, choose: Option<string>): UnoView {
    if !Playable(v, card) then v
    else
      var v1 := if p in v.hands then v.(hands := v.hands[p := RemoveFirst(v.hands[p], card)]) else v;
      var v2 := ApplyRank(v1, card, ParseChoose(choose));
      if p in v2.hands && v2.hands[p] == [] then v2.(winner := Some(p)) else v2
  }

  /** Every action but `start`, which deals a fresh random game. */
  function Step(v: UnoView, payload: UnoPayloadToServer): UnoView {
    if payload.action == "draw_card" then DrawCard(v, payload.playerName)
    else if payload.action == "pass_turn" then PassTurn(v)
    else if payload.action == "play_card" && payload.card.Some? then
      PlayCard(v, payload.playerName, payload.card.value, payload.chooseColor)
    else v
  }

  // ---------------------------------------------------------------------
  // The handler
  // ---------------------------------------------------------------------

  /** The Uno game of the room `id`, if the room exists and hosts one. */
  function UnoGameOf(rooms: map<string, GameRoom>, id: string): Option<UnoModel> {
    if id in rooms && rooms[id].game.UnoGame? then Some(rooms[id].game.uno) else None
  }

  function UnoFrame(rooms: map<string, GameRoom>, id: string): set<object> {
    if UnoGameOf(rooms, id).Some? then {UnoGameOf(rooms, id).value} else {}
  }

  /** The position of the first copy of `card` in `hand`. */
  method Position(hand: seq<UnoCard>, card: UnoCard) returns (pos: Option<nat>)
    ensures pos.None? <==> card !in hand
    ensures pos.Some? ==> pos.value < |hand| && hand[pos.value] == card && card !in hand[..pos.value]
  {
    var i := 0;
    while i < |hand|
      invariant i <= |hand|
      invariant card !in hand[..i]
    {
      if hand[i] == card {
        return Some(i);
      }
      assert hand[..i + 1] == hand[..i] + [hand[i]];
      i := i + 1;
    }
    assert hand[..i] == hand;
    return None;
  }

  /** Removing at the first copy's position is `RemoveFirst`. */
  lemma {:induction false} RemoveAtFirst(hand: seq<UnoCard>, card: UnoCard, i: nat)
    requires i < |hand| && hand[i] == card && card !in hand[..i]
    ensures RemoveFirst(hand, card) == hand[..i] + hand[i + 1..]
  {
    if i > 0 {
      assert hand[0] in hand[..i];
      assert hand[1..][..i - 1] == hand[1..i];
      assert card !in hand[1..][..i - 1] by {
        assert forall x :: x in hand[1..i] ==> x in hand[..i];
      }
      RemoveAtFirst(hand[1..], card, i - 1);
      assert hand[1..][i - 1 + 1..] == hand[i + 1..];
      assert [hand[0]] + (hand[1..][..i - 1] + hand[i + 1..]) == hand[..i] + hand[i + 1..];
    }
  }

  /** Takes the first copy of `card` out of `p`'s hand, if they have a hand. */
  method TakeFromHand(m: UnoModel, p: string, card: UnoCard)
    requires m.Valid()
    modifies m`hands
    ensures m.Valid()
    ensures ViewOf(m) == if p in old(m.hands) then old(ViewOf(m)).(hands := old(m.hands)[p := RemoveFirst(old(m.hands)[p], card)]) else old(ViewOf(m))
  {
    if p in m.hands {
      var hand := m.hands[p];
      var pos := Position(hand, card);
      if pos.Some? {
        RemoveAtFirst(hand, card, pos.value);
        m.hands := m.hands[p := hand[..pos.value] + hand[pos.value + 1..]];
      } else {
        m.hands := m.hands[p := hand];
      }
    }
  }

  /** Dispatches a playable card on its rank. */
  method ApplyRankTo(m: UnoModel, card: UnoCard, chosen: Option<UnoColor>)
    requires m.Valid()
    modifies m
    ensures m.Valid()
    ensures ViewOf(m) == ApplyRank(old(ViewOf(m)), card, chosen)
  {
    if card.rank.Skip? || card.rank.Reverse? || card.rank.DrawTwo? {
      ApplyActionRankTo(m, card);
    } else if card.rank.Wild? || card.rank.WildDrawFour? {
      ApplyWildRankTo(m, card, chosen);
    } else {
      m.ApplyNumberPlay(card);
    }
  }

  method ApplyActionRankTo(m: UnoModel, card: UnoCard)
    requires m.Valid() && (card.rank.Skip? || card.rank.Reverse? || card.rank.DrawTwo?)
    modifies m`discardTop, m`currentIdx, m`direction, m`pendingDraw
    ensures m.Valid()
    ensures ViewOf(m) == ApplyRank(old(ViewOf(m)), card, None)
  {
    match card.rank {
      case Skip => m.ApplySkip(card);
      case Reverse => m.ApplyReverse(card);
      case DrawTwo => m.ApplyDrawTwo(card);
    }
  }

  method ApplyWildRankTo(m: UnoModel, card: UnoCard, chosen: Option<UnoColor>)
    requires m.Valid() && (card.rank.Wild? || card.rank.WildDrawFour?)
    modifies m`discardTop, m`currentIdx, m`chosenColor, m`pendingDraw
    ensures m.Valid()
    ensures ViewOf(m) == ApplyRank(old(ViewOf(m)), card, chosen)
  {
    if chosen.Some? {
      if card.rank.Wild? {
        m.ApplyWild(card, chosen.value);
      } else {
        m.ApplyWildDrawFour(card, chosen.value);
      }
    }
  }

  /** `play_card` on the game object. */
  method PlayCardOn(m: UnoModel, p: string, card: UnoCard, choose: Option<string>)
    requires m.Valid()
    modifies m
    ensures m.Valid()
    ensures ViewOf(m) == PlayCard(old(ViewOf(m)), p, card, choose)
  {
    if m.discardTop.Some? && CanPlayOnTop(m.discardTop.value, card) {
      TakeFromHand(m, p, card);
      var chosen := ParseChoose(choose);
      ApplyRankTo(m, card, chosen);
      if p in m.hands && m.hands[p] == [] {
        m.winner := Some(p);
      }
    }
  }

  /** `draw_card` on the game object. */
  method DrawCardOn(m: UnoModel, p: string)
    requires m.Valid()
    modifies m`deck, m`hands
    ensures m.Valid()
    ensures ViewOf(m) == DrawCard(old(ViewOf(m)), p)
  {
    if |m.deck| > 0 {
      var c := m.deck[|m.deck| - 1];
      m.deck := m.deck[..|m.deck| - 1];
      if p in m.hands {
        m.hands := m.hands[p := m.hands[p] + [c]];
      }
    }
  }

  /**
   * `start` on the game object: a new deal from a shuffled full deck, as
   * `StartedFrom` says; the seats and the winner stay as they were.
   */
  method StartOn(m: UnoModel) returns (ghost shuffled: seq<UnoCard>)
    requires m.Valid()
    modifies m
    ensures m.Valid()
    ensures m.StartedFrom(shuffled, old(m.discardTop))
    ensures m.players == old(m.players) && m.winner == old(m.winner)
  {
    shuffled := m.Start();
  }

  /** Any other action on the game object, as `Step` says. */
  method StepOn(m: UnoModel, payload: UnoPayloadToServer)
    requires m.Valid() && payload.action != "start"
    modifies m
    ensures m.Valid()
    ensures ViewOf(m) == Step(old(ViewOf(m)), payload)
  {
    if payload.action == "draw_card" {
      DrawCardOn(m, payload.playerName);
    } else if payload.action == "pass_turn" {
      m.AdvanceTurn(1);
    } else if payload.action == "play_card" && payload.card.Some? {
      PlayCardOn(m, payload.playerName, payload.card.value, payload.chooseColor);
    }
  }

  /**
   * Handles one Uno message. A missing room, or a room that hosts another
   * game, gets the empty snapshot and nothing changes. Otherwise `start`
   * deals a new game and every other action changes the game as `Step`
   * says; the answer is the public snapshot of the new state.
   */
  method HandleUno(rooms: map<string, GameRoom>, payload: UnoPayloadToServer)
    returns (msg: UnoPayloadToClient, ghost shuffled: seq<UnoCard>)
    requires UnoGameOf(rooms, payload.gameId).Some? ==> UnoGameOf(rooms, payload.gameId).value.Valid()
    modifies UnoFrame(rooms, payload.gameId)
    ensures UnoGameOf(rooms, payload.gameId).None? ==> msg == EmptySnapshot(payload.gameId)
    ensures UnoGameOf(rooms, payload.gameId).Some? ==>
      var m := UnoGameOf(rooms, payload.gameId).value;
      m.Valid() && msg == BuildPublicUpdate(payload.gameId, m)
    ensures UnoGameOf(rooms, payload.gameId).Some? && payload.action != "start" ==>
      var m := UnoGameOf(rooms, payload.gameId).value;
      ViewOf(m) == Step(old(ViewOf(m)), payload)
    ensures UnoGameOf(rooms, payload.gameId).Some? && payload.action == "start" ==>
      var m := UnoGameOf(rooms, payload.gameId).value;
      m.StartedFrom(shuffled, old(m.discardTop)) && m.players == old(m.players) && m.winner == old(m.winner)
  {
    var g := UnoGameOf(rooms, payload.gameId);
    if g.None? {
      return EmptySnapshot(payload.gameId), [];
    }
    shuffled := [];
    var m := g.value;
    if payload.action == "start" {
      shuffled := StartOn(m);
    } else {
      StepOn(m, payload);
    }
    msg := BuildPublicUpdate(payload.gameId, m);
  }

  // ---------------------------------------------------------------------
  // What the actions preserve
  // ---------------------------------------------------------------------

  /** A seated player's draw moves one card from the pile to their hand: no card appears or vanishes. */
  lemma DrawCardConserves(v: UnoView, p: string)
    requires Distinct(v.players) && p in v.players && p in v.hands && v.deck != []
    ensures |DrawCard(v, p).hands[p]| == |v.hands[p]| + 1
    ensures HeldCards(DrawCard(v, p)) == HeldCards(v)
  {
    var c := v.deck[|v.deck| - 1];
    var w := DrawCard(v, p);
    assert v.deck == w.deck + [c];
    assert multiset(v.deck) == multiset(w.deck) + multiset{c};
    assert w.hands == v.hands[p := v.hands[p] + [c]] && w.players == v.players;
    HandsBagUpdate(v.players, v.hands, p, v.hands[p] + [c]);
    assert multiset(v.hands[p] + [c]) == multiset(v.hands[p]) + multiset{c};
    var after, before, h := HandsBag(v.players, w.hands), HandsBag(v.players, v.hands), multiset(v.hands[p]);
    assert after + h == before + (h + multiset{c});
    forall x
      ensures after[x] == (before + multiset{c})[x]
    {
      assert (after + h)[x] == (before + (h + multiset{c}))[x];
    }
    assert after == before + multiset{c};
  }

  /** A player without a hand who draws takes the top card off the pile and it is gone. */
  lemma DrawByOutsiderLosesCard(v: UnoView, p: string)
    requires p !in v.hands && v.deck != []
    ensures DrawCard(v, p).hands == v.hands
    ensures |DrawCard(v, p).deck| == |v.deck| - 1
  {
  }

  /** Removing the first copy of a held card takes exactly that card out. */
  lemma {:induction false} RemoveFirstTakesOne(hand: seq<UnoCard>, card: UnoCard)
    requires card in hand
    ensures multiset(RemoveFirst(hand, card)) + multiset{card} == multiset(hand)
  {
    if hand[0] != card {
      RemoveFirstTakesOne(hand[1..], card);
      assert hand == [hand[0]] + hand[1..];
    } else {
      assert hand == [hand[0]] + hand[1..];
    }
  }

  /**
   * Playing a playable card the player holds takes exactly that card out
   * of their hand; no other hand changes.
   */
  lemma PlayCardTakesCard(v: UnoView, p: string, card: UnoCard, choose: Option<string>)
    requires Playable(v, card) && p in v.hands && card in v.hands[p]
    ensures p in PlayCard(v, p, card, choose).hands
    ensures multiset(PlayCard(v, p, card, choose).hands[p]) + multiset{card} == multiset(v.hands[p])
    ensures forall q :: q in v.hands && q != p ==> q in PlayCard(v, p, card, choose).hands && PlayCard(v, p, card, choose).hands[q] == v.hands[q]
  {
    RemoveFirstTakesOne(v.hands[p], card);
    var v1 := v.(hands := v.hands[p := RemoveFirst(v.hands[p], card)]);
    ApplyRankKeepsHands(v1, card, ParseChoose(choose));
    assert PlayCard(v, p, card, choose).hands == v1.hands;
  }

  lemma ApplyRankKeepsHands(v: UnoView, card: UnoCard, chosen: Option<UnoColor>)
    ensures ApplyRank(v, card, chosen).hands == v.hands && ApplyRank(v, card, chosen).players == v.players
    ensures ApplyRank(v, card, chosen).winner == v.winner
  {
  }

  /**
   * A wild card played without a colour the handler can parse leaves the
   * player's hand, yet goes nowhere: the discard and the turn stay as they were.
   */
  lemma UncolouredWildIsDropped(v: UnoView, p: string, card: UnoCard, choose: Option<string>)
    requires Playable(v, card) && IsWildRank(card.rank) && ParseChoose(choose).None?
    requires p in v.hands && card in v.hands[p]
    ensures var w := PlayCard(v, p, card, choose);
      w.discardTop == v.discardTop && w.currentIdx == v.currentIdx && |w.hands[p]| == |v.hands[p]| - 1
  {
  }

  /** The winner only ever changes to the player who just emptied their hand. */
  lemma WinnerEmptiedHand(v: UnoView, p: string, card: UnoCard, choose: Option<string>)
    ensures var w := PlayCard(v, p, card, choose);
      w.winner != v.winner ==> w.winner == Some(p) && p in w.hands && w.hands[p] == [] && Playable(v, card)
  {
  }

  /** An unplayable card, or none, changes nothing. */
  lemma UnplayableChangesNothing(v: UnoView, payload: UnoPayloadToServer)
    requires payload.action == "play_card"
    requires payload.card.None? || !Playable(v, payload.card.value)
    ensures Step(v, payload) == v
  {
  }

  /** `k` passes in a row. */
  function Passes(v: UnoView, k: nat): UnoView {
    if k == 0 then v else PassTurn(Passes(v, k - 1))
  }

  lemma {:induction false} PassesAdvance(v: UnoView, k: nat)
    requires v.currentIdx < |v.players|
    ensures Passes(v, k) == v.(currentIdx := AfterSteps(v.currentIdx, |v.players|, v.direction, k))
  {
    if k == 0 {
      ModSmall(v.currentIdx, |v.players|, v.direction);
    } else {
      PassesAdvance(v, k - 1);
      AdvancedCompose(v.currentIdx, |v.players|, v.direction, k - 1, 1);
    }
  }

  lemma ModSmall(i: nat, n: nat, direction: int)
    requires i < n
    ensures Advanced(i, n, direction, 0) == i
  {
  }

  /** Once every seat has passed, the turn is back where it started. */
  lemma PassesFullCircle(v: UnoView)
    requires 0 <= v.currentIdx < |v.players|
    ensures Passes(v, |v.players|) == v
  {
    PassesAdvance(v, |v.players|);
    AdvancedFullCircle(v.currentIdx, |v.players|, v.direction);
  }
}
