/**
 * The session loop of `main`: read a bet, play a round, move the stake,
 * until the stake is gone. The stake and the bet are `i32` in the program;
 * an addition or subtraction outside that range stops the program (the
 * overflow check of a debug build), which the model reports as `Panicked`.
 */
module Session {
  import opened Wrappers
  import opened Cards
  import opened CardSets
  import opened Round

  /** What `parse::<i32>` can return. */
  newtype i32 = x: int | InI32(x)

  predicate InI32(x: int)
  {
    -0x8000_0000 <= x < 0x8000_0000
  }

  const StartingStake: int := 500

  /** What one round reads: the order its shuffle produces and the player's answers. */
  datatype RoundInput = RoundInput(shuffled: seq<Card>, actions: seq<Option<Action>>)

  /**
   * How the session stops: the stake is gone, the input ran out (the program
   * would keep asking), or the program stopped on an overflow or an empty deck.
   */
  datatype SessionEnd = GameOver(dollars: int) | Waiting(dollars: int) | Panicked

  /**
   * The bet check: a bet that does not parse, or that is larger than the
   * stake, is refused. Zero and negative bets are accepted.
   */
  function AcceptBet(dollars: int, parsed: Option<i32>): (bet: Option<int>)
    ensures bet.Some? <==> parsed.Some? && parsed.value as int <= dollars
    ensures bet.Some? ==> bet.value == parsed.value as int && InI32(bet.value)
  {
    match parsed
    case Some(i) => if i as int <= dollars then Some(i as int) else None
    case None => None
  }

  /** The stake after a round: a win adds the bet, a loss takes it, a draw leaves it. */
  function Settle(dollars: int, bet: int, g: GameResult): (r: Option<int>)
    ensures g == Draw ==> r == Some(dollars)
    ensures r.Some? && g != Draw ==> InI32(r.value)
    ensures r.Some? && g == Win ==> r.value - bet == dollars
    ensures r.Some? && g == Lose ==> r.value + bet == dollars
    ensures r.None? <==>
      (g == Win && !InI32(dollars + bet)) || (g == Lose && !InI32(dollars - bet))
  {
    match g
    case Win => if InI32(dollars + bet) then Some(dollars + bet) else None
    case Draw => Some(dollars)
    case Lose => if InI32(dollars - bet) then Some(dollars - bet) else None
  }

  /**
   * With a bet between 0 and the stake, settling never overflows on a loss or
   * a draw, and the stake stays at 0 or above.
   */
  lemma SettleWithinStake(dollars: int, bet: int, g: GameResult)
    requires 0 <= bet <= dollars && InI32(dollars)
    ensures g != Win ==> Settle(dollars, bet, g).Some?
    ensures Settle(dollars, bet, g).Some? ==> Settle(dollars, bet, g).value >= 0
  {
  }

  /** While the loop runs, a negative bet passes the bet check, and losing it raises the stake. */
  lemma NegativeBetLossRaisesStake(dollars: int, bet: i32)
    requires dollars > 0
    requires bet < 0 && InI32(dollars - bet as int)
    ensures AcceptBet(dollars, Some(bet)) == Some(bet as int)
    ensures Settle(dollars, bet as int, Lose).Some? && Settle(dollars, bet as int, Lose).value > dollars
  {
  }

  /**
   * The session from a stake of `dollars`, with the bets still to be read
   * (`None` for a line that does not parse) and the rounds still to be
   * played. A refused bet plays no round and changes nothing.
   */
  function SessionSpec(dollars: int, bets: seq<Option<i32>>, rounds: seq<RoundInput>): (e: SessionEnd)
    decreases |bets|
    ensures e.GameOver? ==> e.dollars <= 0
    ensures e.Waiting? ==> e.dollars > 0
  {
    if dollars <= 0 then GameOver(dollars)
    else if bets == [] then Waiting(dollars)
    else
      match AcceptBet(dollars, bets[0])
      case None => SessionSpec(dollars, bets[1..], rounds)
      case Some(bet) =>
        if rounds == [] then Waiting(dollars)
        else
          match PlayRoundSpec(rounds[0].shuffled, rounds[0].actions)
          case AwaitingInput => Waiting(dollars)
          case DeckExhausted => Panicked
          case Resolved(g, _) =>
            match Settle(dollars, bet, g)
            case None => Panicked
            case Some(d) => SessionSpec(d, bets[1..], rounds[1..])
  }

  /** A refused bet plays no round and leaves the stake as it was; the next line is read. */
  lemma RefusedBetSkipped(dollars: int, bets: seq<Option<i32>>, rounds: seq<RoundInput>)
    requires dollars > 0 && bets != [] && AcceptBet(dollars, bets[0]).None?
    ensures SessionSpec(dollars, bets, rounds) == SessionSpec(dollars, bets[1..], rounds)
  {
  }

  /**
   * A session: from 500, a bet of 100 that wins gives 600, and then a bet of
   * all 600 that loses ends the game with nothing left.
   */
  lemma WinThenLoseAll(r1: RoundInput, r2: RoundInput)
    requires PlayRoundSpec(r1.shuffled, r1.actions).Resolved?
    requires PlayRoundSpec(r1.shuffled, r1.actions).result == Win
    requires PlayRoundSpec(r2.shuffled, r2.actions).Resolved?
    requires PlayRoundSpec(r2.shuffled, r2.actions).result == Lose
    ensures Settle(StartingStake, 100, Win) == Some(600)
    ensures SessionSpec(StartingStake, [Some(100), Some(600)], [r1, r2]) == GameOver(0)
  {
    var bets: seq<Option<i32>> := [Some(100), Some(600)];
    assert bets[1..] == [Some(600)] && bets[1..][1..] == [];
    assert [r1, r2][1..] == [r2];
  }

  /** Every bet that parses is 0 or more. */
  predicate NonNegativeBets(bets: seq<Option<i32>>)
  {
    forall k :: 0 <= k < |bets| && bets[k].Some? ==> bets[k].value >= 0
  }

  /**
   * While every bet is 0 or more, the stake never goes below 0, and the
   * session only ends for want of money with exactly 0 left.
   */
  lemma {:induction false} StakeStaysNonNegative(dollars: int, bets: seq<Option<i32>>, rounds: seq<RoundInput>)
    requires 0 <= dollars && InI32(dollars)
    requires NonNegativeBets(bets)
    ensures !SessionSpec(dollars, bets, rounds).Panicked? ==> SessionSpec(dollars, bets, rounds).dollars >= 0
    ensures SessionSpec(dollars, bets, rounds).GameOver? ==> SessionSpec(dollars, bets, rounds).dollars == 0
    decreases |bets|
  {
    if dollars > 0 && bets != [] {
      assert NonNegativeBets(bets[1..]) by {
        forall k | 0 <= k < |bets[1..]| && bets[1..][k].Some?
          ensures bets[1..][k].value >= 0
        {
          assert bets[1..][k] == bets[k + 1];
        }
      }
      match AcceptBet(dollars, bets[0])
      case None =>
        StakeStaysNonNegative(dollars, bets[1..], rounds);
      case Some(bet) =>
        if rounds != [] {
          match PlayRoundSpec(rounds[0].shuffled, rounds[0].actions)
          case AwaitingInput =>
          case DeckExhausted =>
          case Resolved(g, _) =>
            SettleWithinStake(dollars, bet, g);
            if Settle(dollars, bet, g).Some? {
              StakeStaysNonNegative(Settle(dollars, bet, g).value, bets[1..], rounds[1..]);
            }
        }
    }
  }

  /** One accepted bet, one round played, the stake settled: the session goes on from the new stake. */
  lemma PlayedStep(dollars: int, bets: seq<Option<i32>>, rounds: seq<RoundInput>, bet: int, g: GameResult, d: int)
    requires dollars > 0 && bets != [] && rounds != []
    requires AcceptBet(dollars, bets[0]) == Some(bet)
    requires PlayRoundSpec(rounds[0].shuffled, rounds[0].actions).Resolved?
    requires PlayRoundSpec(rounds[0].shuffled, rounds[0].actions).result == g
    requires g == Win ==> d == dollars + bet
    requires g == Draw ==> d == dollars
    requires g == Lose ==> d == dollars - bet
    requires InI32(d)
    ensures SessionSpec(dollars, bets, rounds) == SessionSpec(d, bets[1..], rounds[1..])
  {
    assert Settle(dollars, bet, g) == Some(d);
  }

  /**
   * The loop of `main`, given the lines it reads as bets and, for each
   * accepted bet, what the round reads. The stake starts at 500 and the
   * loop runs while it is above 0.
   */
  method Session(bets: seq<Option<i32>>, rounds: seq<RoundInput>) returns (end: SessionEnd)
    requires forall k {:trigger IsShuffledDeck(rounds[k].shuffled)} :: 0 <= k < |rounds| ==> IsShuffledDeck(rounds[k].shuffled)
    ensures end == SessionSpec(StartingStake, bets, rounds)
    ensures end.GameOver? ==> end.dollars <= 0
  {
    var dollars := StartingStake;
    var i, j := 0, 0;
    while dollars > 0
      invariant 0 <= i <= |bets| && 0 <= j <= |rounds| && InI32(dollars)
      invariant SessionSpec(dollars, bets[i..], rounds[j..]) == SessionSpec(StartingStake, bets, rounds)
      decreases |bets| - i
    {
      if i == |bets| {
        return Waiting(dollars);
      }
      var parsed := bets[i];
      ghost var stake, left, unplayed := dollars, bets[i..], rounds[j..];
      assert left[1..] == bets[i + 1..];
      i := i + 1;
      if parsed.None? || parsed.value as int > dollars {
        continue;
      }
      var bet := parsed.value as int;
      assert AcceptBet(stake, left[0]) == Some(bet);
      if j == |rounds| {
        return Waiting(dollars);
      }
      var result := PlayRound(rounds[j].shuffled, rounds[j].actions);
      assert unplayed[1..] == rounds[j + 1..];
      j := j + 1;
      if result.None? {
        return Waiting(dollars);
      }
      assert PlayRoundSpec(unplayed[0].shuffled, unplayed[0].actions).result == result.value;
      match result.value {
        case Win =>
          if !InI32(dollars + bet) {
            return Panicked;
          }
          dollars := dollars + bet;
        case Draw =>
        case Lose =>
          if !InI32(dollars - bet) {
            return Panicked;
          }
          dollars := dollars - bet;
      }
      PlayedStep(stake, left, unplayed, bet, result.value, dollars);
    }
    end := GameOver(dollars);
  }
}
