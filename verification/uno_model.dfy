/**
 * The card-game engine: a 108-card deck, one hidden hand per seat, the
 * top discard card, seat rotation with a direction, and a forced-draw
 * penalty counter.
 */
module Uno {
  import opened Wrappers

  datatype UnoColor = Red | Yellow | Green | Blue | Wild

  datatype UnoRank =
    | N0 | N1 | N2 | N3 | N4 | N5 | N6 | N7 | N8 | N9
    | Skip | Reverse | DrawTwo | Wild | WildDrawFour

  datatype UnoCard = UnoCard(color: UnoColor, rank: UnoRank)

  predicate IsWildRank(r: UnoRank) {
    r.Wild? || r.WildDrawFour?
  }

  predicate IsWildCard(c: UnoCard) {
    IsWildRank(c.rank)
  }

  /** A card as the deck holds it: colour Wild exactly on the two wild ranks. */
  predicate WellFormed(c: UnoCard) {
    c.color.Wild? <==> IsWildRank(c.rank)
  }

  // ---------------------------------------------------------------------
  // The full deck, in the order the builder pushes it
  // ---------------------------------------------------------------------

  const Colors: seq<UnoColor> := [Red, Yellow, Green, Blue]

  const Numbers: seq<UnoRank> := [N0, N1, N2, N3, N4, N5, N6, N7, N8, N9]

  /** Two copies of each rank in rs, in colour c. */
  function Pairs(c: UnoColor, rs: seq<UnoRank>): (d: seq<UnoCard>)
    ensures |d| == 2 * |rs|
  {
    if rs == [] then [] else Pairs(c, rs[..|rs| - 1]) + [UnoCard(c, rs[|rs| - 1]), UnoCard(c, rs[|rs| - 1])]
  }

  /** k rounds of Skip, Reverse, DrawTwo in colour c. */
  function ActionRounds(c: UnoColor, k: nat): (d: seq<UnoCard>)
    ensures |d| == 3 * k
  {
    if k == 0 then [] else ActionRounds(c, k - 1) + [UnoCard(c, Skip), UnoCard(c, Reverse), UnoCard(c, DrawTwo)]
  }

  /** The 25 cards of one colour. */
  function ColorBlock(c: UnoColor): (d: seq<UnoCard>)
    ensures |d| == 25
  {
    [UnoCard(c, N0)] + Pairs(c, Numbers[1..]) + ActionRounds(c, 2)
  }

  function ColorBlocks(cs: seq<UnoColor>): (d: seq<UnoCard>)
    ensures |d| == 25 * |cs|
  {
    if cs == [] then [] else ColorBlocks(cs[..|cs| - 1]) + ColorBlock(cs[|cs| - 1])
  }

  /** k rounds of one Wild and one WildDrawFour. */
  function WildRounds(k: nat): (d: seq<UnoCard>)
    ensures |d| == 2 * k
  {
    if k == 0 then [] else WildRounds(k - 1) + [UnoCard(UnoColor.Wild, UnoRank.Wild), UnoCard(UnoColor.Wild, WildDrawFour)]
  }

  function FullDeck(): (d: seq<UnoCard>)
    ensures |d| == 108
  {
    ColorBlocks(Colors) + WildRounds(4)
  }

  predicate IsActionRank(r: UnoRank) {
    r.Skip? || r.Reverse? || r.DrawTwo?
  }

  /** How many copies of a card the deck holds. */
  function ExpectedCount(c: UnoCard): nat {
    if c.color.Wild? then (if IsWildRank(c.rank) then 4 else 0)
    else if IsWildRank(c.rank) then 0
    else if c.rank.N0? then 1
    else 2
  }

  predicate Distinct<T(==)>(s: seq<T>) {
    forall i, j :: 0 <= i < j < |s| ==> s[i] != s[j]
  }

  lemma {:induction false} PairsCount(c: UnoColor, rs: seq<UnoRank>, card: UnoCard)
    ensures multiset(Pairs(c, rs))[card] == if card.color == c then 2 * multiset(rs)[card.rank] else 0
  {
    if rs != [] {
      var init, last := rs[..|rs| - 1], rs[|rs| - 1];
      var pair := UnoCard(c, last);
      assert multiset(rs)[card.rank] == multiset(init)[card.rank] + (if card.rank == last then 1 else 0) by {
        assert rs == init + [last];
        CountAppend(init, [last], card.rank);
      }
      assert multiset(Pairs(c, rs))[card] == multiset(Pairs(c, init))[card] + (if card == pair then 2 else 0) by {
        assert Pairs(c, rs) == Pairs(c, init) + [pair, pair];
        CountAppend(Pairs(c, init), [pair, pair], card);
      }
      PairsCount(c, init, card);
      if card.color == c {
        assert card == pair <==> card.rank == last;
      } else {
        assert card != pair;
      }
    }
  }

  lemma CountAppend<T>(a: seq<T>, b: seq<T>, x: T)
    ensures multiset(a + b)[x] == multiset(a)[x] + multiset(b)[x]
  {
  }

  /** In a sequence without repeats every value occurs once or not at all. */
  lemma {:induction false} DistinctCount<T>(s: seq<T>, x: T)
    requires Distinct(s)
    ensures multiset(s)[x] == if x in s then 1 else 0
  {
    if s != [] {
      var init := s[..|s| - 1];
      assert Distinct(init);
      DistinctCount(init, x);
      assert s == init + [s[|s| - 1]];
      CountAppend(init, [s[|s| - 1]], x);
    }
  }

  lemma {:induction false} ActionRoundsCount(c: UnoColor, k: nat, card: UnoCard)
    ensures multiset(ActionRounds(c, k))[card] == if card.color == c && IsActionRank(card.rank) then k else 0
  {
    if k > 0 {
      ActionRoundsCount(c, k - 1, card);
    }
  }

  lemma OnesDistinct()
    ensures Numbers[1..] == [N1, N2, N3, N4, N5, N6, N7, N8, N9]
    ensures Distinct(Numbers[1..])
  {
  }

  /** The positive number ranks are exactly the ranks that are neither 0, an action nor wild. */
  lemma OnesMembership(r: UnoRank)
    ensures r in Numbers[1..] <==> !r.N0? && !IsActionRank(r) && !IsWildRank(r)
  {
    if r.N0? || IsActionRank(r) || IsWildRank(r) {
      OnesExclude(r);
    } else {
      OnesInclude(r);
    }
  }

  lemma OnesInclude(r: UnoRank)
    requires !r.N0? && !IsActionRank(r) && !IsWildRank(r)
    ensures r in Numbers[1..]
  {
    var ones := Numbers[1..];
    assert ones == [N1, N2, N3, N4, N5, N6, N7, N8, N9];
    match r
    case N1 => assert ones[0] == r;
    case N2 => assert ones[1] == r;
    case N3 => assert ones[2] == r;
    case N4 => assert ones[3] == r;
    case N5 => assert ones[4] == r;
    case N6 => assert ones[5] == r;
    case N7 => assert ones[6] == r;
    case N8 => assert ones[7] == r;
    case N9 => assert ones[8] == r;
  }

  lemma OnesExclude(r: UnoRank)
    requires r.N0? || IsActionRank(r) || IsWildRank(r)
    ensures r !in Numbers[1..]
  {
    var ones := Numbers[1..];
    assert ones == [N1, N2, N3, N4, N5, N6, N7, N8, N9];
    forall i | 0 <= i < 9
      ensures ones[i] != r
    {
    }
  }

  /** Each positive number rank occurs once among the number ranks after 0, and no other rank does. */
  lemma OnesCount(r: UnoRank)
    ensures multiset(Numbers[1..])[r] == if !r.N0? && !IsActionRank(r) && !IsWildRank(r) then 1 else 0
  {
    OnesDistinct();
    OnesMembership(r);
    DistinctCount(Numbers[1..], r);
  }

  lemma ColorBlockSplit(c: UnoColor, card: UnoCard)
    ensures multiset(ColorBlock(c))[card]
         == (if card == UnoCard(c, N0) then 1 else 0)
          + multiset(Pairs(c, Numbers[1..]))[card] + multiset(ActionRounds(c, 2))[card]
  {
    var a, b, d := [UnoCard(c, N0)], Pairs(c, Numbers[1..]), ActionRounds(c, 2);
    assert ColorBlock(c) == a + b + d;
    assert multiset(a + b + d) == multiset(a) + multiset(b) + multiset(d);
  }

  lemma ColorBlockCount(c: UnoColor, card: UnoCard)
    requires !c.Wild?
    ensures multiset(ColorBlock(c))[card] == if card.color == c then ExpectedCount(card) else 0
  {
    var ones := multiset(Pairs(c, Numbers[1..]))[card];
    var actions := multiset(ActionRounds(c, 2))[card];
    ColorBlockSplit(c, card);
    PairsCount(c, Numbers[1..], card);
    ActionRoundsCount(c, 2, card);
    OnesCount(card.rank);
    ColorBlockSum(c, card, ones, actions);
  }

  /** The three parts of a colour block add up to the expected count. */
  lemma ColorBlockSum(c: UnoColor, card: UnoCard, ones: nat, actions: nat)
    requires !c.Wild?
    requires ones == if card.color == c && !card.rank.N0? && !IsActionRank(card.rank) && !IsWildRank(card.rank) then 2 else 0
    requires actions == if card.color == c && IsActionRank(card.rank) then 2 else 0
    ensures (if card == UnoCard(c, N0) then 1 else 0) + ones + actions == if card.color == c then ExpectedCount(card) else 0
  {
  }

  lemma ColorBlocksSplit(cs: seq<UnoColor>, card: UnoCard)
    requires cs != []
    ensures multiset(ColorBlocks(cs))[card]
         == multiset(ColorBlocks(cs[..|cs| - 1]))[card] + multiset(ColorBlock(cs[|cs| - 1]))[card]
  {
    var a, b := ColorBlocks(cs[..|cs| - 1]), ColorBlock(cs[|cs| - 1]);
    assert ColorBlocks(cs) == a + b;
    assert multiset(a + b) == multiset(a) + multiset(b);
  }

  lemma {:induction false} ColorBlocksCount(cs: seq<UnoColor>, card: UnoCard)
    requires Distinct(cs) && UnoColor.Wild !in cs
    ensures multiset(ColorBlocks(cs))[card] == if card.color in cs then ExpectedCount(card) else 0
  {
    if cs != [] {
      var init, last := cs[..|cs| - 1], cs[|cs| - 1];
      assert cs == init + [last];
      assert Distinct(init);
      assert last !in init;
      ColorBlocksCount(init, card);
      ColorBlockCount(last, card);
      ColorBlocksSplit(cs, card);
      var inInit := card.color in init;
      assert card.color in cs <==> inInit || card.color == last;
      assert !(inInit && card.color == last);
      DisjointSum(multiset(ColorBlocks(cs))[card], multiset(ColorBlocks(init))[card], multiset(ColorBlock(last))[card],
        ExpectedCount(card), inInit, card.color == last, card.color in cs);
    }
  }

  /** Two counts, at most one of them non-zero, add up to the expected count exactly when either case holds. */
  lemma DisjointSum(m: int, a: int, b: int, e: int, p: bool, q: bool, r: bool)
    requires m == a + b && a == (if p then e else 0) && b == (if q then e else 0)
    requires !(p && q) && (r <==> p || q)
    ensures m == if r then e else 0
  {
  }

  lemma {:induction false} WildRoundsCount(k: nat, card: UnoCard)
    ensures multiset(WildRounds(k))[card] == if card.color.Wild? && IsWildRank(card.rank) then k else 0
  {
    if k > 0 {
      WildRoundsCount(k - 1, card);
    }
  }

  lemma ColorsFacts()
    ensures Distinct(Colors) && UnoColor.Wild !in Colors
    ensures forall c: UnoColor :: c in Colors <==> !c.Wild?
  {
    forall c: UnoColor | !c.Wild?
      ensures c in Colors
    {
      match c
      case Red => assert Colors[0] == c;
      case Yellow => assert Colors[1] == c;
      case Green => assert Colors[2] == c;
      case Blue => assert Colors[3] == c;
    }
  }

  lemma FullDeckCount(card: UnoCard)
    ensures multiset(FullDeck())[card] == ExpectedCount(card)
  {
    ColorsFacts();
    ColorBlocksCount(Colors, card);
    WildRoundsCount(4, card);
    var a, b := ColorBlocks(Colors), WildRounds(4);
    assert FullDeck() == a + b;
    assert multiset(a + b) == multiset(a) + multiset(b);
  }

  /**
   * The deck's composition: per colour one 0, two each of 1-9, Skip,
   * Reverse and DrawTwo; four Wild and four WildDrawFour, all of colour
   * Wild; 108 cards, every one well formed.
   */
  lemma FullDeckComposition()
    ensures |FullDeck()| == 108
    ensures forall card :: multiset(FullDeck())[card] == ExpectedCount(card)
    ensures forall card :: card in FullDeck() ==> WellFormed(card)
  {
    forall card
      ensures multiset(FullDeck())[card] == ExpectedCount(card)
    {
      FullDeckCount(card);
    }
    forall card | card in FullDeck()
      ensures WellFormed(card)
    {
      FullDeckCount(card);
      assert multiset(FullDeck())[card] > 0;
    }
  }

  /** Builds the 108-card deck colour by colour, then the wild cards. */
  method BuildFullUnoDeck() returns (deck: seq<UnoCard>)
    ensures deck == FullDeck()
  {
    deck := [];
    var colors := Colors;
    for ci := 0 to 4
      invariant deck == ColorBlocks(colors[..ci])
    {
      var color := colors[ci];
      ghost var before := deck;
      deck := deck + [UnoCard(color, N0)];
      deck := AppendNumberPairs(deck, color);
      deck := AppendActionRounds(deck, color);
      BlockAppended(before, color, deck);
      assert colors[..ci + 1][..ci] == colors[..ci];
    }
    assert colors[..4] == Colors;
    for k := 0 to 4
      invariant deck == ColorBlocks(Colors) + WildRounds(k)
    {
      deck := deck + [UnoCard(UnoColor.Wild, UnoRank.Wild)];
      deck := deck + [UnoCard(UnoColor.Wild, WildDrawFour)];
    }
  }

  lemma BlockAppended(before: seq<UnoCard>, color: UnoColor, deck: seq<UnoCard>)
    requires deck == before + [UnoCard(color, N0)] + Pairs(color, Numbers[1..]) + ActionRounds(color, 2)
    ensures deck == before + ColorBlock(color)
  {
    var zero, pairs, actions := [UnoCard(color, N0)], Pairs(color, Numbers[1..]), ActionRounds(color, 2);
    assert before + zero + pairs + actions == before + (zero + pairs + actions);
  }

  /** Appends two cards of each number 1 to 9 in colour c, in order. */
  method AppendNumberPairs(start: seq<UnoCard>, color: UnoColor) returns (deck: seq<UnoCard>)
    ensures deck == start + Pairs(color, Numbers[1..])
  {
    var numbers := Numbers;
    deck := start;
    for ri := 1 to 10
      invariant deck == start + Pairs(color, numbers[1..ri])
    {
      var card := UnoCard(color, numbers[ri]);
      assert numbers[1..ri + 1][..ri - 1] == numbers[1..ri];
      assert Pairs(color, numbers[1..ri + 1]) == Pairs(color, numbers[1..ri]) + [card, card];
      deck := deck + [card];
      deck := deck + [card];
    }
    assert numbers[1..10] == numbers[1..];
  }

  /** Appends two rounds of Skip, Reverse, DrawTwo in colour c. */
  method AppendActionRounds(start: seq<UnoCard>, color: UnoColor) returns (deck: seq<UnoCard>)
    ensures deck == start + ActionRounds(color, 2)
  {
    deck := start;
    for k := 0 to 2
      invariant deck == start + ActionRounds(color, k)
    {
      deck := deck + [UnoCard(color, Skip)];
      deck := deck + [UnoCard(color, Reverse)];
      deck := deck + [UnoCard(color, DrawTwo)];
    }
  }

  // ---------------------------------------------------------------------
  // The draw pile: its top is the last element
  // ---------------------------------------------------------------------

  function Min(a: int, b: int): int {
    if a <= b then a else b
  }

  /** s in reverse order. */
  function Backwards<T>(s: seq<T>): (r: seq<T>)
    ensures |r| == |s|
  {
    if s == [] then [] else [s[|s| - 1]] + Backwards(s[..|s| - 1])
  }

  lemma {:induction false} BackwardsMultiset<T>(s: seq<T>)
    ensures multiset(Backwards(s)) == multiset(s)
  {
    if s != [] {
      BackwardsMultiset(s[..|s| - 1]);
      assert s == s[..|s| - 1] + [s[|s| - 1]];
    }
  }

  lemma {:induction false} BackwardsIndex<T>(s: seq<T>)
    ensures forall i :: 0 <= i < |s| ==> Backwards(s)[i] == s[|s| - 1 - i]
  {
    if s != [] {
      BackwardsIndex(s[..|s| - 1]);
    }
  }

  lemma BackwardsInvolution<T>(s: seq<T>)
    ensures Backwards(Backwards(s)) == s
  {
    BackwardsIndex(s);
    BackwardsIndex(Backwards(s));
  }

  lemma PopStep(rest: seq<UnoCard>, out: seq<UnoCard>)
    requires rest != []
    ensures rest[..|rest| - 1] + Backwards(out + [rest[|rest| - 1]]) == rest + Backwards(out)
  {
    var c := rest[|rest| - 1];
    assert (out + [c])[..|out|] == out;
    assert Backwards(out + [c]) == [c] + Backwards(out);
    assert rest == rest[..|rest| - 1] + [c];
  }

  /** The cards n pops take off d, in the order they come off. */
  function TopCards(d: seq<UnoCard>, n: nat): seq<UnoCard> {
    Backwards(d[|d| - Min(n, |d|)..])
  }

  /** What is left of d after n pops. */
  function DropTop(d: seq<UnoCard>, n: nat): seq<UnoCard> {
    d[..|d| - Min(n, |d|)]
  }

  /**
   * Pops up to n cards off the top of the deck, stopping early when it
   * runs dry; the drawn cards come back in pop order.
   */
  method DrawFromDeck(deck: seq<UnoCard>, n: nat) returns (rest: seq<UnoCard>, out: seq<UnoCard>)
    ensures |out| == Min(n, |deck|)
    ensures rest + Backwards(out) == deck
  {
    rest, out := deck, [];
    for i := 0 to n
      invariant |out| == Min(i, |deck|)
      invariant rest + Backwards(out) == deck
    {
      if rest != [] {
        var c := rest[|rest| - 1];
        PopStep(rest, out);
        rest := rest[..|rest| - 1];
        out := out + [c];
      }
    }
  }

  /** A draw is determined by the deck and n. */
  lemma DrawDetermined(deck: seq<UnoCard>, n: nat, rest: seq<UnoCard>, out: seq<UnoCard>)
    requires |out| == Min(n, |deck|) && rest + Backwards(out) == deck
    ensures rest == DropTop(deck, n) && out == TopCards(deck, n)
  {
    assert rest == deck[..|rest|];
    assert Backwards(out) == deck[|rest|..];
    BackwardsInvolution(out);
  }

  /** A draw moves cards from the pile without losing or adding any. */
  lemma DrawConserves(deck: seq<UnoCard>, n: nat)
    ensures multiset(DropTop(deck, n)) + multiset(TopCards(deck, n)) == multiset(deck)
  {
    var m := |deck| - Min(n, |deck|);
    assert deck == deck[..m] + deck[m..];
    BackwardsMultiset(deck[m..]);
  }

  lemma DropTopTwice(d: seq<UnoCard>, a: nat, b: nat)
    ensures DropTop(DropTop(d, a), b) == DropTop(d, a + b)
  {
  }

  // ---------------------------------------------------------------------
  // Dealing: seven cards per seat, seat by seat, from the top
  // ---------------------------------------------------------------------

  /** The hand seat i is dealt from the shuffled deck s: seven cards while the deck lasts. */
  function DealtHand(s: seq<UnoCard>, i: nat): (h: seq<UnoCard>)
    ensures |h| <= 7
    ensures 7 * (i + 1) <= |s| ==> |h| == 7
  {
    TopCards(DropTop(s, 7 * i), 7)
  }

  /** All cards dealt to the first k seats: the top 7k cards of the deck (or all of it). */
  function DealtBag(s: seq<UnoCard>, k: nat): multiset<UnoCard> {
    multiset(TopCards(s, 7 * k))
  }

  /** The top a + 7 cards are the top a cards and the top 7 of what is left under them. */
  lemma TopCardsSplit(s: seq<UnoCard>, a: nat)
    ensures multiset(TopCards(s, a + 7)) == multiset(TopCards(s, a)) + multiset(TopCards(DropTop(s, a), 7))
  {
    var m := |s|;
    var x, y := Min(a, m), Min(a + 7, m);
    var d := DropTop(s, a);
    assert d == s[..m - x];
    assert Min(7, |d|) == y - x;
    assert d[|d| - Min(7, |d|)..] == s[m - y..m - x];
    assert s[m - y..] == s[m - y..m - x] + s[m - x..];
    BackwardsMultiset(s[m - y..]);
    BackwardsMultiset(s[m - x..]);
    BackwardsMultiset(s[m - y..m - x]);
  }

  /** The first k seats get the cards of the first k - 1 and the hand of seat k - 1. */
  lemma DealStep(s: seq<UnoCard>, k: nat)
    requires k > 0
    ensures DealtBag(s, k) == DealtBag(s, k - 1) + multiset(DealtHand(s, k - 1))
  {
    var a := 7 * (k - 1);
    assert 7 * k == a + 7;
    TopCardsSplit(s, a);
  }

  lemma BagSwap<T>(a: multiset<T>, x: multiset<T>, b: multiset<T>)
    ensures (a + x) + b == (a + b) + x
  {
  }

  /** Dealing only moves cards: the hands and the remaining pile make up the shuffled deck. */
  lemma DealConserves(s: seq<UnoCard>, k: nat)
    ensures DealtBag(s, k) + multiset(DropTop(s, 7 * k)) == multiset(s)
  {
    DrawConserves(s, 7 * k);
  }

  /** The cards held by the seats ps (a seat without a hand holds none). */
  function HandsBag(ps: seq<string>, hands: map<string, seq<UnoCard>>): multiset<UnoCard> {
    if ps == [] then multiset{}
    else HandsBag(ps[..|ps| - 1], hands) + (if ps[|ps| - 1] in hands then multiset(hands[ps[|ps| - 1]]) else multiset{})
  }

  lemma {:induction false} HandsBagDealt(ps: seq<string>, hands: map<string, seq<UnoCard>>, s: seq<UnoCard>)
    requires forall i :: 0 <= i < |ps| ==> ps[i] in hands && hands[ps[i]] == DealtHand(s, i)
    ensures HandsBag(ps, hands) == DealtBag(s, |ps|)
  {
    if ps != [] {
      var init, last := ps[..|ps| - 1], ps[|ps| - 1];
      forall i | 0 <= i < |init|
        ensures init[i] in hands && hands[init[i]] == DealtHand(s, i)
      {
        assert init[i] == ps[i];
      }
      HandsBagDealt(init, hands, s);
      assert HandsBag(ps, hands) == HandsBag(init, hands) + multiset(hands[last]);
      assert hands[last] == DealtHand(s, |init|);
      DealStep(s, |ps|);
    }
  }

  lemma {:induction false} HandsBagIgnores(ps: seq<string>, hands: map<string, seq<UnoCard>>, p: string, hand: seq<UnoCard>)
    requires p !in ps
    ensures HandsBag(ps, hands[p := hand]) == HandsBag(ps, hands)
  {
    if ps != [] {
      HandsBagIgnores(ps[..|ps| - 1], hands, p, hand);
    }
  }

  /** Replacing one seat's hand changes the cards held by exactly that hand's difference. */
  lemma {:induction false} HandsBagUpdate(ps: seq<string>, hands: map<string, seq<UnoCard>>, p: string, hand: seq<UnoCard>)
    requires Distinct(ps) && p in ps && p in hands
    ensures HandsBag(ps, hands[p := hand]) + multiset(hands[p]) == HandsBag(ps, hands) + multiset(hand)
  {
    var init, last := ps[..|ps| - 1], ps[|ps| - 1];
    assert Distinct(init);
    if last == p {
      assert p !in init;
      HandsBagIgnores(init, hands, p, hand);
    } else {
      assert p in init;
      HandsBagUpdate(init, hands, p, hand);
      var x := if last in hands then multiset(hands[last]) else multiset{};
      assert HandsBag(ps, hands) == HandsBag(init, hands) + x;
      assert HandsBag(ps, hands[p := hand]) == HandsBag(init, hands[p := hand]) + x;
      BagSwap(HandsBag(init, hands[p := hand]), x, multiset(hands[p]));
      BagSwap(HandsBag(init, hands), x, multiset(hand));
    }
  }

  // ---------------------------------------------------------------------
  // Flipping the first discard
  // ---------------------------------------------------------------------

  predicate HasNonWild(d: seq<UnoCard>) {
    exists i :: 0 <= i < |d| && !IsWildCard(d[i])
  }

  /** The position of the topmost non-wild card. */
  function LastNonWild(d: seq<UnoCard>): (j: nat)
    requires HasNonWild(d)
    ensures j < |d| && !IsWildCard(d[j])
    ensures forall k :: j < k < |d| ==> IsWildCard(d[k])
  {
    if !IsWildCard(d[|d| - 1]) then |d| - 1
    else
      assert HasNonWild(d[..|d| - 1]) by {
        var i :| 0 <= i < |d| && !IsWildCard(d[i]);
        assert d[..|d| - 1][i] == d[i];
      }
      LastNonWild(d[..|d| - 1])
  }

  /** d after its top t cards have each been popped and put back at the bottom. */
  function Rotated(d: seq<UnoCard>, t: nat): seq<UnoCard>
    requires t <= |d|
  {
    d[|d| - t..] + d[..|d| - t]
  }

  datatype Flip = Flip(deck: seq<UnoCard>, top: UnoCard)

  /**
   * The intended flip: the wild cards above the topmost non-wild card go
   * to the bottom in the order they come off, and that card becomes the
   * discard.
   */
  function FlipResult(d: seq<UnoCard>): (f: Flip)
    requires HasNonWild(d)
    ensures !IsWildCard(f.top)
    ensures multiset(f.deck) + multiset{f.top} == multiset(d)
    ensures |f.deck| + 1 == |d|
  {
    var j := LastNonWild(d);
    assert d == d[..j] + [d[j]] + d[j + 1..];
    Flip(d[j + 1..] + d[..j], d[j])
  }

  /** One pass of the flip loop as the source writes it. */
  datatype FlipState = Flipping(pile: seq<UnoCard>) | Flipped(rest: seq<UnoCard>, top: Option<UnoCard>)

  function FlipIteration(d: seq<UnoCard>): FlipState {
    if d == [] then Flipped([], None)
    else if IsWildCard(d[|d| - 1]) then Flipping([d[|d| - 1]] + d[..|d| - 1])
    else Flipped(d[..|d| - 1], Some(d[|d| - 1]))
  }

  /** The loop's state after at most k passes. */
  function FlipAfter(d: seq<UnoCard>, k: nat): FlipState
    decreases k
  {
    if k == 0 then Flipping(d)
    else match FlipIteration(d)
      case Flipping(d') => FlipAfter(d', k - 1)
      case Flipped(_, _) => FlipIteration(d)
  }

  lemma RotateOnce(d: seq<UnoCard>, t: nat)
    requires t < |d|
    ensures Rotated(d, t) != []
    ensures var r := Rotated(d, t); [r[|r| - 1]] + r[..|r| - 1] == Rotated(d, t + 1)
    ensures var r := Rotated(d, t); r[|r| - 1] == d[|d| - 1 - t] && r[..|r| - 1] == d[|d| - t..] + d[..|d| - 1 - t]
  {
    var n := |d|;
    var r := Rotated(d, t);
    assert r[..n - 1] == d[n - t..] + d[..n - 1 - t];
    assert d[n - 1 - t..] == [d[n - 1 - t]] + d[n - t..];
  }

  /**
   * As long as the popped cards are wild, the as-written loop just
   * rotates the pile.
   */
  lemma {:induction false} FlipAfterRotated(d: seq<UnoCard>, t: nat, k: nat, n: nat)
    requires t < |d| && n == t + k
    requires forall i :: |d| - t <= i < |d| ==> IsWildCard(d[i])
    ensures FlipAfter(d, n) == FlipAfter(Rotated(d, t), k)
  {
    if t > 0 {
      FlipAfterRotated(d, t - 1, k + 1, n);
      WildPopRotates(d, t);
      assert FlipAfter(Rotated(d, t - 1), k + 1) == FlipAfter(Rotated(d, t), k);
    } else {
      assert Rotated(d, 0) == d;
    }
  }

  /** Popping a wild card and putting it back at the bottom rotates the pile one step further. */
  lemma WildPopRotates(d: seq<UnoCard>, t: nat)
    requires 0 < t < |d| && IsWildCard(d[|d| - t])
    ensures FlipIteration(Rotated(d, t - 1)) == Flipping(Rotated(d, t))
  {
    RotateOnce(d, t - 1);
  }

  lemma RotatedFlipStops(d: seq<UnoCard>, t: nat)
    requires t < |d| && !IsWildCard(d[|d| - 1 - t])
    ensures FlipAfter(Rotated(d, t), 1) == Flipped(d[|d| - t..] + d[..|d| - 1 - t], Some(d[|d| - 1 - t]))
  {
    RotateOnce(d, t);
  }

  lemma FlipResultAt(d: seq<UnoCard>, t: nat)
    requires HasNonWild(d) && t == |d| - 1 - LastNonWild(d)
    ensures FlipResult(d) == Flip(d[|d| - t..] + d[..|d| - 1 - t], d[|d| - 1 - t])
  {
    var j := LastNonWild(d);
    assert j + 1 == |d| - t && j == |d| - 1 - t;
  }

  /**
   * When d[j] is non-wild and every card above it is wild, the loop as
   * written stops after |d| - j passes with d[j] as the discard and the
   * cards above it moved to the bottom.
   */
  lemma FlipStopsAt(d: seq<UnoCard>, j: nat)
    requires j < |d| && !IsWildCard(d[j])
    requires forall k :: j < k < |d| ==> IsWildCard(d[k])
    ensures FlipAfter(d, |d| - j) == Flipped(d[j + 1..] + d[..j], Some(d[j]))
  {
    var t := |d| - 1 - j;
    FlipAfterRotated(d, t, 1, |d| - j);
    RotatedFlipStops(d, t);
  }

  /**
   * Whenever the pile holds a non-wild card, the loop as written stops
   * with exactly the intended flip.
   */
  lemma FlipAfterAgrees(d: seq<UnoCard>, j: nat)
    requires HasNonWild(d) && j == LastNonWild(d)
    ensures FlipAfter(d, |d| - j) == Flipped(FlipResult(d).deck, Some(FlipResult(d).top))
  {
    FlipStopsAt(d, j);
  }

  /**
   * The as-written loop never leaves a non-empty pile made only of wild
   * cards: every pass puts the popped card back.
   */
  lemma {:induction false} AllWildFlipNeverStops(d: seq<UnoCard>, k: nat)
    requires d != [] && forall c :: c in d ==> IsWildCard(c)
    ensures FlipAfter(d, k).Flipping?
    ensures multiset(FlipAfter(d, k).pile) == multiset(d)
    decreases k
  {
    if k > 0 {
      var d' := [d[|d| - 1]] + d[..|d| - 1];
      BottomPutBackKeepsCards(d);
      forall c | c in d'
        ensures IsWildCard(c)
      {
        assert c in multiset(d');
      }
      AllWildFlipNeverStops(d', k - 1);
    }
  }

  /** Putting the top card back at the bottom keeps the same cards. */
  lemma BottomPutBackKeepsCards(d: seq<UnoCard>)
    requires d != []
    ensures multiset([d[|d| - 1]] + d[..|d| - 1]) == multiset(d)
  {
    assert d == d[..|d| - 1] + [d[|d| - 1]];
  }

  lemma WildRoundsAllWild(k: nat)
    ensures forall c :: c in WildRounds(k) ==> IsWildCard(c)
  {
    if k > 0 {
      WildRoundsAllWild(k - 1);
    }
  }

  /**
   * A shuffle that leaves three wild cards at the bottom of the pile:
   * with fifteen seats, dealing takes 105 cards and the flip loop is left
   * with those three and never finishes.
   */
  lemma FifteenSeatsCanHang()
    ensures var s := FullDeck()[105..] + FullDeck()[..105];
      multiset(s) == multiset(FullDeck())
      && DropTop(s, 7 * 15) != []
      && (forall c :: c in DropTop(s, 7 * 15) ==> IsWildCard(c))
      && forall k: nat :: FlipAfter(DropTop(s, 7 * 15), k).Flipping?
  {
    var f := FullDeck();
    var s := f[105..] + f[..105];
    assert f == f[..105] + f[105..];
    var rest := DropTop(s, 7 * 15);
    assert rest == f[105..];
    WildRoundsAllWild(4);
    forall c | c in rest
      ensures IsWildCard(c)
    {
      var i :| 0 <= i < |rest| && rest[i] == c;
      assert c == WildRounds(4)[i + 5];
    }
    forall k: nat
      ensures FlipAfter(rest, k).Flipping?
    {
      AllWildFlipNeverStops(rest, k);
    }
  }

  /** Two cards that together make up a pile count its length. */
  lemma {:induction false} CountTwo(r: seq<UnoCard>, a: UnoCard, b: UnoCard)
    requires a != b && forall c :: c in r ==> c == a || c == b
    ensures |r| == multiset(r)[a] + multiset(r)[b]
  {
    if r != [] {
      var init := r[..|r| - 1];
      assert r == init + [r[|r| - 1]];
      forall c | c in init
        ensures c == a || c == b
      {
        assert c in r;
      }
      CountTwo(init, a, b);
      assert r[|r| - 1] in r;
      assert multiset(r) == multiset(init) + multiset{r[|r| - 1]};
      assert multiset(r)[a] == multiset(init)[a] + (if r[|r| - 1] == a then 1 else 0);
      assert multiset(r)[b] == multiset(init)[b] + (if r[|r| - 1] == b then 1 else 0);
    }
  }

  /** The only wild cards the deck holds are the two of colour Wild. */
  lemma WildCardsOfDeck(c: UnoCard)
    requires IsWildCard(c) && ExpectedCount(c) > 0
    ensures c == UnoCard(UnoColor.Wild, UnoRank.Wild) || c == UnoCard(UnoColor.Wild, WildDrawFour)
  {
  }

  /** A shuffle of the full deck: 108 cards, each as often as the deck holds it. */
  ghost predicate IsShuffledDeck(s: seq<UnoCard>) {
    |s| == 108 && forall c :: multiset(s)[c] == ExpectedCount(c)
  }

  lemma ShuffledDeck(s: seq<UnoCard>)
    requires multiset(s) == multiset(FullDeck())
    ensures IsShuffledDeck(s)
  {
    FullDeckComposition();
    assert |multiset(s)| == |multiset(FullDeck())|;
  }

  /** With up to fifteen seats (105 of the 108 cards) every seat is dealt a full hand of seven. */
  lemma FullHandsUpToFifteenSeats(s: seq<UnoCard>, i: nat)
    requires IsShuffledDeck(s) && i < 15
    ensures |DealtHand(s, i)| == 7
  {
  }

  /** A pile of wild cards taken from a shuffled deck holds at most eight cards. */
  lemma AllWildPileSmall(r: seq<UnoCard>, s: seq<UnoCard>)
    requires IsShuffledDeck(s) && multiset(r) <= multiset(s)
    requires forall c :: c in r ==> IsWildCard(c)
    ensures |r| <= 8
  {
    var w, w4 := UnoCard(UnoColor.Wild, UnoRank.Wild), UnoCard(UnoColor.Wild, WildDrawFour);
    forall c | c in r
      ensures c == w || c == w4
    {
      assert multiset(r)[c] >= 1;
      WildCardsOfDeck(c);
    }
    CountTwo(r, w, w4);
    assert multiset(s)[w] == 4 && multiset(s)[w4] == 4;
  }

  /**
   * With at most fourteen seats at least ten cards stay after the deal,
   * more than the eight wild cards, so the flip always finds a non-wild card.
   */
  lemma FlipFindsCard(s: seq<UnoCard>, k: nat)
    requires IsShuffledDeck(s) && k <= 14
    ensures HasNonWild(DropTop(s, 7 * k))
  {
    var rest := DropTop(s, 7 * k);
    if !HasNonWild(rest) {
      assert s == rest + s[|rest|..];
      assert multiset(rest) <= multiset(s);
      forall c | c in rest
        ensures IsWildCard(c)
      {
        var i :| 0 <= i < |rest| && rest[i] == c;
      }
      AllWildPileSmall(rest, s);
      assert false;
    }
  }

  // ---------------------------------------------------------------------
  // Seat rotation and the penalty counter
  // ---------------------------------------------------------------------

  /** The unit step direction stands for: 1 when non-negative, -1 otherwise. */
  function DirStep(direction: int): (u: int)
    ensures u == 1 || u == -1
    ensures u == 1 <==> direction >= 0
  {
    if direction >= 0 then 1 else -1
  }

  /** The seat index steps moves away from idx around n seats (Euclidean remainder). */
  function Advanced(idx: int, n: nat, direction: int, steps: nat): (r: int)
    requires n > 0
    ensures 0 <= r < n
  {
    (idx + DirStep(direction) * steps) % n
  }

  lemma ModAddMultiple(x: int, q: int, n: int)
    requires n > 0
    ensures (x + q * n) % n == x % n
  {
    var r := x % n;
    assert x == (x / n) * n + r;
    assert x + q * n == (x / n + q) * n + r;
    ModUnique(x + q * n, x / n + q, r, n);
  }

  lemma {:induction false} MulAtLeast(a: int, n: int)
    requires a >= 1 && n > 0
    ensures a * n >= n
    decreases a
  {
    if a > 1 {
      MulAtLeast(a - 1, n);
      assert a * n == (a - 1) * n + n;
    }
  }

  lemma ModUnique(x: int, q: int, r: int, n: int)
    requires n > 0 && 0 <= r < n && x == q * n + r
    ensures x % n == r
  {
    var q', r' := x / n, x % n;
    assert q' * n + r' == q * n + r;
    if q' > q {
      assert (q' - q) * n == r - r';
      MulAtLeast(q' - q, n);
    } else if q' < q {
      assert (q - q') * n == r' - r;
      MulAtLeast(q - q', n);
    }
  }

  lemma ModAddLeft(a: int, b: int, n: int)
    requires n > 0
    ensures ((a % n) + b) % n == (a + b) % n
  {
    assert a == (a / n) * n + a % n;
    ModAddMultiple((a % n) + b, a / n, n);
  }

  /** Moving a seats and then b seats is moving a + b seats. */
  lemma AdvancedCompose(idx: int, n: nat, direction: int, a: nat, b: nat)
    requires n > 0
    ensures Advanced(Advanced(idx, n, direction, a), n, direction, b) == Advanced(idx, n, direction, a + b)
  {
    var u := DirStep(direction);
    ModAddLeft(idx + u * a, u * b, n);
    assert idx + u * a + u * b == idx + u * (a + b);
  }

  /** A full circle of n moves returns to the starting seat. */
  lemma AdvancedFullCircle(idx: nat, n: nat, direction: int)
    requires idx < n
    ensures Advanced(idx, n, direction, n) == idx
  {
    ModAddMultiple(idx, DirStep(direction), n);
    ModUnique(idx, 0, idx, n);
  }

  /** Moving k seats one way and k seats back returns to the starting seat. */
  lemma AdvancedBack(idx: nat, n: nat, k: nat)
    requires idx < n
    ensures Advanced(Advanced(idx, n, 1, k), n, -1, k) == idx
  {
    var there := Advanced(idx, n, 1, k);
    assert there == (idx + k) % n;
    assert Advanced(there, n, -1, k) == (there - k) % n;
    ModAddLeft(idx + k, -(k as int), n);
    assert idx + k - k == idx;
    ModUnique(idx, 0, idx, n);
  }

  /** u8 saturating_add. */
  function SaturatingAdd(p: nat, k: nat): (r: nat)
    ensures r <= 255 || r == p + k
    ensures p + k <= 255 ==> r == p + k
    ensures p + k > 255 ==> r == 255
  {
    if p + k > 255 then 255 else p + k
  }

  /** The classic rule without a colour lock: same colour, same rank, or any wild card. */
  function CanPlayOnTop(top: UnoCard, card: UnoCard): (ok: bool)
    ensures IsWildCard(card) ==> ok
    ensures ok && !IsWildCard(card) ==> card.color == top.color || card.rank == top.rank
    ensures card.color == top.color || card.rank == top.rank ==> ok
  {
    IsWildRank(card.rank) || card.color == top.color || card.rank == top.rank
  }

  /** On a wild discard (colour Wild) only wild cards are playable. */
  lemma WildTopTakesOnlyWilds(top: UnoCard, card: UnoCard)
    requires WellFormed(top) && WellFormed(card) && IsWildCard(top)
    ensures CanPlayOnTop(top, card) <==> IsWildCard(card)
  {
  }

  /** Between two non-wild cards, playability is symmetric. */
  lemma CanPlayOnTopSymmetric(a: UnoCard, b: UnoCard)
    requires !IsWildCard(a) && !IsWildCard(b)
    ensures CanPlayOnTop(a, b) == CanPlayOnTop(b, a)
  {
  }

  /** A fresh full deck in an arbitrary order: the shuffle is a nondeterministic choice. */
  method NewShuffledDeck() returns (s: seq<UnoCard>)
    ensures IsShuffledDeck(s)
  {
    var built := BuildFullUnoDeck();
    s :| multiset(s) == multiset(built);
    ShuffledDeck(s);
  }

  /** The seat index after steps moves; with no seats the index stays put. */
  function AfterSteps(idx: nat, n: nat, direction: int, steps: nat): (r: nat)
    ensures n > 0 ==> r < n
    ensures n == 0 ==> r == idx
  {
    if n == 0 then idx else Advanced(idx, n, direction, steps)
  }

  /** The per-seat hand sizes as a u8 each, in seat order; a seat without a hand counts 0. */
  function HandSizes(ps: seq<string>, hands: map<string, seq<UnoCard>>): (counts: seq<nat>)
    ensures |counts| == |ps|
    ensures forall i :: 0 <= i < |ps| ==> counts[i] == (if ps[i] in hands then |hands[ps[i]]| else 0) % 256
  {
    if ps == [] then []
    else HandSizes(ps[..|ps| - 1], hands) + [(if ps[|ps| - 1] in hands then |hands[ps[|ps| - 1]]| else 0) % 256]
  }

  lemma DistinctAppend<T>(s: seq<T>, x: T)
    requires Distinct(s) && x !in s
    ensures Distinct(s + [x])
  {
    forall i, j | 0 <= i < j < |s| + 1
      ensures (s + [x])[i] != (s + [x])[j]
    {
      if j == |s| {
        assert s[i] in s;
      }
    }
  }

  class UnoModel {
    var players: seq<string>
    var currentIdx: nat
    var direction: int
    var deck: seq<UnoCard>
    var discardTop: Option<UnoCard>
    var chosenColor: Option<UnoColor>
    var pendingDraw: nat
    var hands: map<string, seq<UnoCard>>
    var winner: Option<string>
    var started: bool

    /**
     * Seats are distinct and each has a hand (nobody else has one); the
     * turn index is a seat (0 while there are none); the direction is
     * 1 or -1; the penalty counter fits a u8.
     */
    ghost predicate Valid()
      reads this
    {
      Distinct(players)
      && hands.Keys == (set p | p in players)
      && (if |players| == 0 then currentIdx == 0 else currentIdx < |players|)
      && (direction == 1 || direction == -1)
      && pendingDraw <= 255
    }

    /** The state of a new model: no seats, no cards, direction 1, not started. */
    predicate IsNew()
      reads this
    {
      players == [] && currentIdx == 0 && direction == 1 && deck == [] && discardTop == None
      && chosenColor == None && pendingDraw == 0 && hands == map[] && winner == None && !started
    }

    /** Every card on the table: the draw pile, all hands and the discard. */
    function Cards(): multiset<UnoCard>
      reads this
    {
      multiset(deck) + HandsBag(players, hands) + (if discardTop.Some? then multiset{discardTop.value} else multiset{})
    }

    /**
     * The state a start leaves from the shuffled deck s (the discard was
     * oldTop before): turn, direction, penalty and colour hint reset; each
     * seat holds its dealt hand; the first non-wild card of what is left is
     * flipped, or the discard is kept when there is none; and then every
     * card of s is on the table.
     */
    ghost predicate StartedFrom(s: seq<UnoCard>, oldTop: Option<UnoCard>)
      reads this
    {
      IsShuffledDeck(s)
      && started && currentIdx == 0 && direction == 1 && pendingDraw == 0 && chosenColor == None
      && (forall i :: 0 <= i < |players| ==> players[i] in hands && hands[players[i]] == DealtHand(s, i))
      && (var rest := DropTop(s, 7 * |players|);
          if HasNonWild(rest) then deck == FlipResult(rest).deck && discardTop == Some(FlipResult(rest).top)
          else deck == rest && discardTop == oldTop)
      && (HasNonWild(DropTop(s, 7 * |players|)) ==> Cards() == multiset(s))
    }

    constructor ()
      ensures Valid() && IsNew()
    {
      players, currentIdx, direction, deck, discardTop := [], 0, 1, [], None;
      chosenColor, pendingDraw, hands, winner, started := None, 0, map[], None, false;
    }

    method Reset()
      modifies this
      ensures Valid() && IsNew()
    {
      players, currentIdx, direction, deck, discardTop := [], 0, 1, [], None;
      chosenColor, pendingDraw, hands, winner, started := None, 0, map[], None, false;
    }

    /** Appends a new seat with an empty hand; a name already seated changes nothing. */
    method AddPlayer(name: string)
      requires Valid()
      modifies this`players, this`hands
      ensures Valid()
      ensures name in old(players) ==> players == old(players) && hands == old(hands)
      ensures name !in old(players) ==> players == old(players) + [name] && hands == old(hands)[name := []]
    {
      if name !in players {
        DistinctAppend(players, name);
        players := players + [name];
        if name !in hands {
          hands := hands[name := []];
        }
      }
    }

    /** The name at the turn index, if the index is a seat. */
    function CurrentPlayer(): (p: Option<string>)
      reads this
      ensures p.Some? <==> currentIdx < |players|
      ensures p.Some? ==> p.value == players[currentIdx]
    {
      if currentIdx < |players| then Some(players[currentIdx]) else None
    }

    function PublicCounts(): (counts: seq<nat>)
      reads this
      ensures |counts| == |players|
      ensures forall i :: 0 <= i < |players| ==> counts[i] == (if players[i] in hands then |hands[players[i]]| else 0) % 256
    {
      HandSizes(players, hands)
    }

    /** Moves the turn steps seats in the current direction, one seat at a time. */
    method AdvanceTurn(steps: nat)
      requires Valid()
      modifies this`currentIdx
      ensures Valid()
      ensures currentIdx == AfterSteps(old(currentIdx), |players|, direction, steps)
    {
      var n := |players|;
      if n == 0 {
        return;
      }
      var dir := if direction >= 0 then 1 else -1;
      var idx: int := currentIdx;
      ModUnique(currentIdx, 0, currentIdx, n);
      for k := 0 to steps
        invariant currentIdx == old(currentIdx)
        invariant idx == Advanced(currentIdx, n, direction, k)
      {
        ModAddLeft(currentIdx + dir * k, dir, n);
        assert dir * k + dir == dir * (k + 1);
        idx := (idx + dir) % n;
      }
      currentIdx := idx;
    }

    method ApplyNumberPlay(card: UnoCard)
      requires Valid()
      modifies this`discardTop, this`currentIdx
      ensures Valid()
      ensures discardTop == Some(card)
      ensures currentIdx == AfterSteps(old(currentIdx), |players|, direction, 1)
    {
      discardTop := Some(card);
      AdvanceTurn(1);
    }

    method ApplySkip(card: UnoCard)
      requires Valid()
      modifies this`discardTop, this`currentIdx
      ensures Valid()
      ensures discardTop == Some(card)
      ensures currentIdx == AfterSteps(old(currentIdx), |players|, direction, 2)
    {
      discardTop := Some(card);
      AdvanceTurn(2);
    }

    /** Reverse flips the direction, except with two seats where it acts as a skip. */
    method ApplyReverse(card: UnoCard)
      requires Valid()
      modifies this`discardTop, this`currentIdx, this`direction
      ensures Valid()
      ensures discardTop == Some(card)
      ensures |players| == 2 ==> direction == old(direction) && currentIdx == AfterSteps(old(currentIdx), 2, direction, 2)
      ensures |players| != 2 ==> direction == -old(direction) && currentIdx == AfterSteps(old(currentIdx), |players|, direction, 1)
    {
      discardTop := Some(card);
      if |players| == 2 {
        AdvanceTurn(2);
      } else {
        direction := direction * -1;
        AdvanceTurn(1);
      }
    }

    method ApplyDrawTwo(card: UnoCard)
      requires Valid()
      modifies this`discardTop, this`currentIdx, this`pendingDraw
      ensures Valid()
      ensures discardTop == Some(card)
      ensures pendingDraw == SaturatingAdd(old(pendingDraw), 2)
      ensures currentIdx == AfterSteps(old(currentIdx), |players|, direction, 1)
    {
      discardTop := Some(card);
      pendingDraw := SaturatingAdd(pendingDraw, 2);
      AdvanceTurn(1);
    }

    /** The chosen colour is recorded as a hint only; it binds no later play. */
    method ApplyWild(card: UnoCard, chosen: UnoColor)
      requires Valid()
      modifies this`discardTop, this`currentIdx, this`chosenColor
      ensures Valid()
      ensures discardTop == Some(card) && chosenColor == Some(chosen)
      ensures currentIdx == AfterSteps(old(currentIdx), |players|, direction, 1)
    {
      discardTop := Some(card);
      chosenColor := Some(chosen);
      AdvanceTurn(1);
    }

    method ApplyWildDrawFour(card: UnoCard, chosen: UnoColor)
      requires Valid()
      modifies this`discardTop, this`currentIdx, this`chosenColor, this`pendingDraw
      ensures Valid()
      ensures discardTop == Some(card) && chosenColor == Some(chosen)
      ensures pendingDraw == SaturatingAdd(old(pendingDraw), 4)
      ensures currentIdx == AfterSteps(old(currentIdx), |players|, direction, 1)
    {
      discardTop := Some(card);
      chosenColor := Some(chosen);
      pendingDraw := SaturatingAdd(pendingDraw, 4);
      AdvanceTurn(1);
    }

    /**
     * The seat to move takes the whole penalty from the pile (as much as
     * is left), the counter clears and the turn passes on.
     */
    method ForceDrawAndSkip()
      requires Valid()
      modifies this`deck, this`hands, this`pendingDraw, this`currentIdx
      ensures Valid()
      ensures old(pendingDraw) == 0 ==> deck == old(deck) && hands == old(hands) && currentIdx == old(currentIdx) && pendingDraw == 0
      ensures old(pendingDraw) > 0 ==>
        pendingDraw == 0 && currentIdx == AfterSteps(old(currentIdx), |players|, direction, 1)
      ensures old(pendingDraw) > 0 && |players| == 0 ==> deck == old(deck) && hands == old(hands)
      ensures old(pendingDraw) > 0 && |players| > 0 ==>
        var p := players[old(currentIdx)];
        deck == DropTop(old(deck), old(pendingDraw))
        && hands == old(hands)[p := old(hands)[p] + TopCards(old(deck), old(pendingDraw))]
    {
      if pendingDraw == 0 {
        return;
      }
      var p := CurrentPlayer();
      if p.Some? {
        var rest, drawn := DrawFromDeck(deck, pendingDraw);
        DrawDetermined(deck, pendingDraw, rest, drawn);
        ghost var before := hands;
        deck := rest;
        if p.value in hands {
          hands := hands[p.value := hands[p.value] + drawn];
        }
        assert hands.Keys == before.Keys;
      }
      pendingDraw := 0;
      AdvanceTurn(1);
    }

    /**
     * The intended flip: the wild cards above the topmost non-wild card go
     * to the bottom one by one, and that card becomes the discard; a pile
     * without a non-wild card is left as it is after one full turn of the
     * pile.
     */
    method FlipFirstNonWild()
      modifies this`deck, this`discardTop
      ensures HasNonWild(old(deck)) ==> deck == FlipResult(old(deck)).deck && discardTop == Some(FlipResult(old(deck)).top)
      ensures !HasNonWild(old(deck)) ==> deck == old(deck) && discardTop == old(discardTop)
    {
      ghost var d := deck;
      var rotations := 0;
      while rotations < |deck|
        invariant rotations <= |d| && |deck| == |d|
        invariant deck == Rotated(d, rotations)
        invariant forall i :: |d| - rotations <= i < |d| ==> IsWildCard(d[i])
        invariant discardTop == old(discardTop)
        decreases |deck| - rotations
      {
        var card := deck[|deck| - 1];
        RotateOnce(d, rotations);
        deck := deck[..|deck| - 1];
        if IsWildCard(card) {
          deck := [card] + deck;
          rotations := rotations + 1;
        } else {
          discardTop := Some(card);
          TopmostNonWild(d, rotations);
          FlipResultAt(d, rotations);
          return;
        }
      }
      assert deck == d;
    }

    /** Deals seven cards (or what is left) to each seat in seat order, from the top of the pile. */
    method DealSevenEach()
      requires Distinct(players) && hands.Keys == (set p | p in players)
      modifies this`deck, this`hands
      ensures hands.Keys == old(hands).Keys
      ensures deck == DropTop(old(deck), 7 * |players|)
      ensures forall i :: 0 <= i < |players| ==> hands[players[i]] == DealtHand(old(deck), i)
    {
      ghost var s := deck;
      var i := 0;
      while i < |players|
        invariant 0 <= i <= |players|
        invariant deck == DropTop(s, 7 * i)
        invariant hands.Keys == old(hands).Keys
        invariant forall j :: 0 <= j < i ==> hands[players[j]] == DealtHand(s, j)
      {
        var rest, hand := DrawFromDeck(deck, 7);
        DealOneSeat(s, i, rest, hand);
        deck := rest;
        DealtHandsStep(hands, players, i, hand, s);
        hands := hands[players[i] := hand];
        i := i + 1;
      }
    }

    /**
     * Deals seven cards to each seat from the top of a fresh pile s, then
     * flips the first discard.
     */
    method DealAndFlip(s: seq<UnoCard>)
      requires Valid()
      modifies this`deck, this`hands, this`discardTop
      ensures Valid()
      ensures forall i :: 0 <= i < |players| ==> hands[players[i]] == DealtHand(s, i)
      ensures var rest := DropTop(s, 7 * |players|);
        if HasNonWild(rest) then deck == FlipResult(rest).deck && discardTop == Some(FlipResult(rest).top)
        else deck == rest && discardTop == old(discardTop)
      ensures HasNonWild(DropTop(s, 7 * |players|)) ==> Cards() == multiset(s)
    {
      deck := s;
      DealSevenEach();
      StartConserves(s, players, hands);
      FlipFirstNonWild();
    }

    /**
     * Starts a game: resets the turn, direction, penalty and colour hint,
     * shuffles a fresh full deck, deals seven cards to each seat in seat
     * order from the top, then flips the first discard.
     */
    method Start() returns (ghost shuffled: seq<UnoCard>)
      requires Valid()
      modifies this`started, this`currentIdx, this`direction, this`pendingDraw, this`chosenColor
      modifies this`deck, this`hands, this`discardTop
      ensures Valid()
      ensures StartedFrom(shuffled, old(discardTop))
    {
      started := true;
      currentIdx := 0;
      direction := 1;
      pendingDraw := 0;
      chosenColor := None;
      var s := NewShuffledDeck();
      shuffled := s;
      DealAndFlip(s);
    }
  }

  /** Seven cards drawn from the pile left after i seats are seat i's hand, and the rest is the pile for seat i + 1. */
  lemma DealOneSeat(s: seq<UnoCard>, i: nat, rest: seq<UnoCard>, hand: seq<UnoCard>)
    requires |hand| == Min(7, |DropTop(s, 7 * i)|) && rest + Backwards(hand) == DropTop(s, 7 * i)
    ensures hand == DealtHand(s, i) && rest == DropTop(s, 7 * (i + 1))
  {
    DrawDetermined(DropTop(s, 7 * i), 7, rest, hand);
    DropTopTwice(s, 7 * i, 7);
    assert 7 * i + 7 == 7 * (i + 1);
  }

  /** Handing seat i its dealt hand keeps the seats before it as they were and the keys unchanged. */
  lemma DealtHandsStep(hands: map<string, seq<UnoCard>>, ps: seq<string>, i: nat, hand: seq<UnoCard>, s: seq<UnoCard>)
    requires Distinct(ps) && i < |ps| && ps[i] in hands && hand == DealtHand(s, i)
    requires forall j :: 0 <= j < i ==> ps[j] in hands && hands[ps[j]] == DealtHand(s, j)
    ensures hands[ps[i] := hand].Keys == hands.Keys
    ensures forall j :: 0 <= j < i + 1 ==> hands[ps[i] := hand][ps[j]] == DealtHand(s, j)
  {
    forall j | 0 <= j < i + 1
      ensures hands[ps[i] := hand][ps[j]] == DealtHand(s, j)
    {
      if j < i {
        assert ps[j] != ps[i];
      }
    }
  }

  /** After the deal and the flip, every card of the shuffled deck is in the pile, a hand or the discard. */
  lemma StartConserves(s: seq<UnoCard>, ps: seq<string>, hands: map<string, seq<UnoCard>>)
    requires forall i :: 0 <= i < |ps| ==> ps[i] in hands && hands[ps[i]] == DealtHand(s, i)
    ensures var rest := DropTop(s, 7 * |ps|);
      HasNonWild(rest) ==> multiset(FlipResult(rest).deck) + HandsBag(ps, hands) + multiset{FlipResult(rest).top} == multiset(s)
  {
    var rest := DropTop(s, 7 * |ps|);
    HandsBagDealt(ps, hands, s);
    DealConserves(s, |ps|);
    if HasNonWild(rest) {
      var f := FlipResult(rest);
      BagSwap(multiset(f.deck), HandsBag(ps, hands), multiset{f.top});
    }
  }

  lemma TopmostNonWild(d: seq<UnoCard>, t: nat)
    requires t < |d| && !IsWildCard(d[|d| - 1 - t])
    requires forall i :: |d| - t <= i < |d| ==> IsWildCard(d[i])
    ensures HasNonWild(d) && LastNonWild(d) == |d| - 1 - t
  {
  }

  /** A penalty draw into a seat's hand only moves cards from the pile to that hand. */
  lemma PenaltyDrawConserves(deck: seq<UnoCard>, n: nat, ps: seq<string>, hands: map<string, seq<UnoCard>>, p: string)
    requires Distinct(ps) && p in ps && p in hands
    ensures multiset(DropTop(deck, n)) + HandsBag(ps, hands[p := hands[p] + TopCards(deck, n)])
         == multiset(deck) + HandsBag(ps, hands)
  {
    DrawConserves(deck, n);
    HandsBagUpdate(ps, hands, p, hands[p] + TopCards(deck, n));
    DrawMoves(multiset(DropTop(deck, n)), multiset(TopCards(deck, n)), HandsBag(ps, hands),
      HandsBag(ps, hands[p := hands[p] + TopCards(deck, n)]), multiset(hands[p]));
  }

  /** Bookkeeping for a draw into a hand: the cards only move. */
  lemma DrawMoves(rest: multiset<UnoCard>, drawn: multiset<UnoCard>, before: multiset<UnoCard>, after: multiset<UnoCard>,
                  hand: multiset<UnoCard>)
    requires after + hand == before + (hand + drawn)
    ensures rest + after == (rest + drawn) + before
  {
    assert after == before + drawn by {
      forall x
        ensures after[x] == (before + drawn)[x]
      {
        assert (after + hand)[x] == (before + (hand + drawn))[x];
      }
    }
  }
}
