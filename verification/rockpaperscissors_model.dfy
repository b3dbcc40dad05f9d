/**
 * The simultaneous-choice engine: two seats, one pending choice each, and
 * a round result computed from a cyclic-dominance table once both chose.
 */
module RockPaperScissors {
  import opened Wrappers

  datatype RpsChoice = Rock | Paper | Scissors

  datatype RpsRoundResult = Pending | Player1 | Player2 | Tie

  datatype PlayerSlot = Player1 | Player2

  /** The Unicode White_Space characters, the set that string trimming strips. */
  predicate IsWhiteSpace(c: char) {
    var n := c as int;
    (9 <= n <= 13) || n == 32 || n == 0x85 || n == 0xA0 || n == 0x1680 ||
    (0x2000 <= n <= 0x200A) || n == 0x2028 || n == 0x2029 || n == 0x202F ||
    n == 0x205F || n == 0x3000
  }

  function TrimStart(s: string): (t: string)
    ensures |t| <= |s| && t == s[|s| - |t|..]
    ensures t == [] || !IsWhiteSpace(t[0])
    ensures forall i :: 0 <= i < |s| - |t| ==> IsWhiteSpace(s[i])
  {
    if s != [] && IsWhiteSpace(s[0]) then TrimStart(s[1..]) else s
  }

  function TrimEnd(s: string): (t: string)
    ensures |t| <= |s| && t == s[..|t|]
    ensures t == [] || !IsWhiteSpace(t[|t| - 1])
    ensures forall i :: |t| <= i < |s| ==> IsWhiteSpace(s[i])
  {
    if s != [] && IsWhiteSpace(s[|s| - 1]) then TrimEnd(s[..|s| - 1]) else s
  }

  /** t is the slice of s from a on, with nothing but white space before and after it in s. */
  predicate IsInnerSlice(s: string, t: string, a: nat) {
    a + |t| <= |s| && t == s[a..a + |t|]
    && (forall i :: 0 <= i < a ==> IsWhiteSpace(s[i]))
    && (forall i :: a + |t| <= i < |s| ==> IsWhiteSpace(s[i]))
  }

  /**
   * The string without its leading and trailing white space: the part of s
   * between white-space ends, which itself neither starts nor ends with it.
   */
  function Trim(s: string): (t: string)
    ensures t == [] || (!IsWhiteSpace(t[0]) && !IsWhiteSpace(t[|t| - 1]))
    ensures exists a :: IsInnerSlice(s, t, a)
  {
    var u := TrimStart(s);
    var a := |s| - |u|;
    assert IsInnerSlice(s, TrimEnd(u), a);
    TrimEnd(u)
  }

  function LowerChar(c: char): char {
    if 'A' <= c <= 'Z' then (c as int + 32) as char else c
  }

  /** Lower-casing of the ASCII letters. */
  function Lower(s: string): (t: string)
    ensures |t| == |s| && forall i :: 0 <= i < |s| ==> t[i] == LowerChar(s[i])
  {
    if s == [] then [] else [LowerChar(s[0])] + Lower(s[1..])
  }

  /** The wire spelling of a choice. */
  function AsStr(c: RpsChoice): (s: string)
    ensures |s| > 0 && forall i :: 0 <= i < |s| ==> 'a' <= s[i] <= 'z'
  {
    match c
    case Rock => "rock"
    case Paper => "paper"
    case Scissors => "scissors"
  }

  /** The choice a trimmed, lower-cased word names: its full name or its initial letter. */
  function ChoiceOfWord(t: string): (c: Option<RpsChoice>)
    ensures c.Some? ==> t == AsStr(c.value) || t == AsStr(c.value)[..1]
    ensures c.None? ==> forall d :: t != AsStr(d) && t != AsStr(d)[..1]
  {
    if t == "rock" || t == "r" then Some(Rock)
    else if t == "paper" || t == "p" then Some(Paper)
    else if t == "scissors" || t == "s" then Some(Scissors)
    else None
  }

  /** Parses a choice after trimming and lower-casing. */
  function FromStr(s: string): Option<RpsChoice> {
    ChoiceOfWord(Lower(Trim(s)))
  }

  /** Parsing the wire spelling of a choice gives the choice back. */
  lemma FromStrAsStr(c: RpsChoice)
    ensures FromStr(AsStr(c)) == Some(c)
  {
    var s := AsStr(c);
    LowerWordIsNormal(s);
    assert FromStr(s) == ChoiceOfWord(s);
    assert ChoiceOfWord(s) == Some(c) by {
      match c
      case Rock => assert s == "rock";
      case Paper => assert s == "paper";
      case Scissors => assert s == "scissors";
    }
  }

  /** A non-empty word of lower-case letters is unchanged by trimming and by lower-casing. */
  lemma LowerWordIsNormal(s: string)
    requires |s| > 0 && forall i :: 0 <= i < |s| ==> 'a' <= s[i] <= 'z'
    ensures Lower(Trim(s)) == s
  {
    assert TrimStart(s) == s;
    assert TrimEnd(s) == s;
    assert Lower(s) == s;
  }

  /** The cycle of dominance: each choice beats exactly its prey. */
  function Prey(c: RpsChoice): RpsChoice {
    match c
    case Rock => Scissors
    case Paper => Rock
    case Scissors => Paper
  }

  predicate Beats(a: RpsChoice, b: RpsChoice) {
    b == Prey(a)
  }

  /** The result of a round in which seat 1 chose p1 and seat 2 chose p2. */
  function RoundOutcome(p1: RpsChoice, p2: RpsChoice): (r: RpsRoundResult)
    ensures r != RpsRoundResult.Pending
    ensures r == RpsRoundResult.Tie <==> p1 == p2
    ensures r == RpsRoundResult.Player1 <==> Beats(p1, p2)
    ensures r == RpsRoundResult.Player2 <==> Beats(p2, p1)
  {
    if p1 == p2 then RpsRoundResult.Tie
    else if (p1 == Rock && p2 == Scissors) || (p1 == Paper && p2 == Rock) || (p1 == Scissors && p2 == Paper)
    then RpsRoundResult.Player1
    else RpsRoundResult.Player2
  }

  /** The result seen from the other seat. */
  function Swapped(r: RpsRoundResult): RpsRoundResult {
    match r
    case Player1 => RpsRoundResult.Player2
    case Player2 => RpsRoundResult.Player1
    case _ => r
  }

  /** Exchanging the two choices exchanges the winner; ties stay ties. */
  lemma OutcomeAntisymmetric(a: RpsChoice, b: RpsChoice)
    ensures RoundOutcome(b, a) == Swapped(RoundOutcome(a, b))
    ensures RoundOutcome(a, a) == RpsRoundResult.Tie
  {
  }

  /** The whole 3x3 table. */
  lemma OutcomeTable()
    ensures RoundOutcome(Rock, Rock) == RpsRoundResult.Tie
    ensures RoundOutcome(Rock, Paper) == RpsRoundResult.Player2
    ensures RoundOutcome(Rock, Scissors) == RpsRoundResult.Player1
    ensures RoundOutcome(Paper, Rock) == RpsRoundResult.Player1
    ensures RoundOutcome(Paper, Paper) == RpsRoundResult.Tie
    ensures RoundOutcome(Paper, Scissors) == RpsRoundResult.Player2
    ensures RoundOutcome(Scissors, Rock) == RpsRoundResult.Player2
    ensures RoundOutcome(Scissors, Paper) == RpsRoundResult.Player1
    ensures RoundOutcome(Scissors, Scissors) == RpsRoundResult.Tie
  {
  }

  class RockPaperScissorsModel {
    var player1Name: Option<string>
    var player2Name: Option<string>
    var player1Choice: Option<RpsChoice>
    var player2Choice: Option<RpsChoice>
    var winner: RpsRoundResult

    constructor ()
      ensures player1Name == None && player2Name == None
      ensures player1Choice == None && player2Choice == None
      ensures winner == RpsRoundResult.Pending
    {
      player1Name := None;
      player2Name := None;
      player1Choice := None;
      player2Choice := None;
      winner := RpsRoundResult.Pending;
    }

    /** Clears both choices and the result; the seats are kept. */
    method ResetRound()
      modifies this`player1Choice, this`player2Choice, this`winner
      ensures player1Choice == None && player2Choice == None
      ensures winner == RpsRoundResult.Pending
    {
      player1Choice := None;
      player2Choice := None;
      winner := RpsRoundResult.Pending;
    }

    predicate BothPlayersJoined()
      reads this
    {
      player1Name.Some? && player2Name.Some?
    }

    predicate BothChoicesMade()
      reads this
    {
      player1Choice.Some? && player2Choice.Some?
    }

    /** The previous round has a result and both choices are still on the table. */
    predicate RoundResolved()
      reads this
    {
      winner != RpsRoundResult.Pending && BothChoicesMade()
    }

    /** The seat held by the name, checking player1 first. */
    function SlotOf(name: string): (s: Option<PlayerSlot>)
      reads this
      ensures s == Some(PlayerSlot.Player1) <==> player1Name == Some(name)
      ensures s == Some(PlayerSlot.Player2) <==> player1Name != Some(name) && player2Name == Some(name)
      ensures s == None <==> player1Name != Some(name) && player2Name != Some(name)
    {
      if player1Name == Some(name) then Some(PlayerSlot.Player1)
      else if player2Name == Some(name) then Some(PlayerSlot.Player2)
      else None
    }

    /**
     * Records the choice in the caller's own seat. A resolved round is
     * cleared first, before the caller is looked up, so an unknown caller
     * can still start a new round.
     */
    method SubmitChoice(name: string, choice: RpsChoice) returns (r: Result<Unit, string>)
      modifies this`player1Choice, this`player2Choice, this`winner
      ensures winner == if old(RoundResolved()) then RpsRoundResult.Pending else old(winner)
      ensures SlotOf(name) == old(SlotOf(name))
      ensures old(SlotOf(name)) == Some(PlayerSlot.Player1) ==>
        r.Ok? && player1Choice == Some(choice) &&
        player2Choice == (if old(RoundResolved()) then None else old(player2Choice))
      ensures old(SlotOf(name)) == Some(PlayerSlot.Player2) ==>
        r.Ok? && player2Choice == Some(choice) &&
        player1Choice == (if old(RoundResolved()) then None else old(player1Choice))
      ensures old(SlotOf(name)) == None ==>
        r == Err("unknown_player") &&
        player1Choice == (if old(RoundResolved()) then None else old(player1Choice)) &&
        player2Choice == (if old(RoundResolved()) then None else old(player2Choice))
    {
      if winner != RpsRoundResult.Pending && BothChoicesMade() {
        ResetRound();
      }
      match SlotOf(name)
      case Some(Player1) =>
        player1Choice := Some(choice);
        r := Ok(Unit);
      case Some(Player2) =>
        player2Choice := Some(choice);
        r := Ok(Unit);
      case None =>
        r := Err("unknown_player");
    }

    /** Computes and stores the round result; Pending until both seats chose. */
    method ResolveRound() returns (w: RpsRoundResult)
      modifies this`winner
      ensures w == winner
      ensures !BothChoicesMade() ==> winner == RpsRoundResult.Pending
      ensures BothChoicesMade() ==> winner == RoundOutcome(player1Choice.value, player2Choice.value)
    {
      if !BothChoicesMade() {
        winner := RpsRoundResult.Pending;
        return winner;
      }
      var p1 := player1Choice.value;
      var p2 := player2Choice.value;
      winner := if p1 == p2 then RpsRoundResult.Tie
        else if (p1 == Rock && p2 == Scissors) || (p1 == Paper && p2 == Rock) || (p1 == Scissors && p2 == Paper)
        then RpsRoundResult.Player1
        else RpsRoundResult.Player2;
      w := winner;
    }

    /** The winning seat's name; None while Pending and on a tie. */
    function WinnerName(): (n: Option<string>)
      reads this
      ensures winner == RpsRoundResult.Pending || winner == RpsRoundResult.Tie ==> n == None
      ensures winner == RpsRoundResult.Player1 ==> n == player1Name
      ensures winner == RpsRoundResult.Player2 ==> n == player2Name
    {
      match winner
      case Player1 => player1Name
      case Player2 => player2Name
      case _ => None
    }
  }
}
