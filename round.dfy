/**
 * One round of blackjack (`play_round`). The round is first described as a
 * function over the state the program keeps in local variables (the deck,
 * the two hands and the two flags `player_wins` and `dealer_wins`), step by
 * step as the loops run; the method `PlayRound` runs the loops on `CardSet`
 * objects and is proved to produce what the function describes.
 *
 * The shuffled deck and the player's answers are inputs. An answer the
 * program cannot read is `None`. When the answers run out, the program
 * reads empty lines at end of input and asks again forever ("Invalid
 * action"); the model stops there and reports `AwaitingInput`.
 */
module Round {
  import opened Wrappers
  import opened Cards
  import opened CardSets

  datatype GameResult = Win | Draw | Lose

  datatype Action = Hit | Stand

  /** The local state of `play_round`. */
  datatype Table = Table(deck: seq<Card>, player: seq<Card>, dealer: seq<Card>, playerWins: bool, dealerWins: bool)

  /** How a round ends: with a result, waiting for an answer, or on `unwrap` of an empty deck. */
  datatype RoundEnd = Resolved(result: GameResult, table: Table) | AwaitingInput | DeckExhausted

  /** Both loops run while neither flag is set. */
  predicate Decided(t: Table)
  {
    t.playerWins || t.dealerWins
  }

  /** The result the final `match` reads off the two flags. */
  function ResultOf(playerWins: bool, dealerWins: bool): (g: GameResult)
    ensures g == Draw <==> playerWins && dealerWins
    ensures g == Win <==> playerWins && !dealerWins
    ensures g == Lose <==> !playerWins
  {
    if playerWins && dealerWins then Draw
    else if playerWins then Win
    else Lose
  }

  /** The deal: two cards from the top of the deck to the player, then one to the dealer. */
  function Deal(deck: seq<Card>): (t: Option<Table>)
    ensures t.Some? <==> |deck| >= 3
    ensures t.Some? ==>
      |t.value.player| == 2 && |t.value.dealer| == 1 && !Decided(t.value) &&
      t.value.deck + [t.value.dealer[0], t.value.player[1], t.value.player[0]] == deck
  {
    if |deck| < 3 then None
    else
      var n := |deck|;
      Some(Table(deck[..n - 3], [deck[n - 1], deck[n - 2]], [deck[n - 3]], false, false))
  }

  /** The checks after the dealer draws, in the program's order. */
  function DealerCheck(t: Table): (u: Table)
    requires !Decided(t)
    ensures u.deck == t.deck && u.player == t.player && u.dealer == t.dealer
    ensures u.dealerWins <==>
      HasBlackjack(t.dealer) || (Optimum(t.dealer) <= 21 && Optimum(t.dealer) > Optimum(t.player))
    ensures u.playerWins <==> Optimum(t.dealer) > 21
    ensures !(u.playerWins && u.dealerWins)
  {
    if HasBlackjack(t.dealer) then t.(dealerWins := true)
    else if Optimum(t.dealer) <= 21 && Optimum(t.dealer) > Optimum(t.player) then t.(dealerWins := true)
    else if Optimum(t.dealer) > 21 then t.(playerWins := true)
    else t
  }

  function Reverse(s: seq<Card>): (r: seq<Card>)
    ensures |r| == |s|
  {
    if s == [] then [] else Reverse(s[1..]) + [s[0]]
  }

  /** `dealer_hand.push(deck.pop().unwrap())` on a deck that is not empty. */
  function DrawToDealer(t: Table): (u: Table)
    requires t.deck != []
  {
    t.(deck := Front(t.deck), dealer := t.dealer + [Last(t.deck)])
  }

  /** `player_hand.push(deck.pop().unwrap())` on a deck that is not empty. */
  function DrawToPlayer(t: Table): (u: Table)
    requires t.deck != []
  {
    t.(deck := Front(t.deck), player := t.player + [Last(t.deck)])
  }

  /**
   * The dealer's loop: draw, check, repeat while no flag is set. It ends
   * with a flag set, never both unless both were set on entry, and it
   * leaves the player's hand alone.
   */
  function DealerTurn(t: Table): (r: Option<Table>)
    decreases |t.deck|
    ensures r.Some? ==> Decided(r.value)
    ensures r.Some? && !(t.playerWins && t.dealerWins) ==> !(r.value.playerWins && r.value.dealerWins)
    ensures r.Some? ==> r.value.player == t.player
    ensures r.Some? ==> |t.dealer| <= |r.value.dealer|
    ensures r.Some? ==> |r.value.deck| + |r.value.dealer| == |t.deck| + |t.dealer|
    ensures r.Some? && Decided(t) ==> r.value == t
  {
    if Decided(t) then Some(t)
    else if t.deck == [] then None
    else DealerTurn(DealerCheck(DrawToDealer(t)))
  }

  /** Moving the top card onto a hand, then more cards the same way, moves them all that way. */
  lemma MoveOneMore(deck: seq<Card>, hand: seq<Card>, deck': seq<Card>, hand': seq<Card>)
    requires deck != []
    requires |hand| + 1 <= |hand'| && hand'[..|hand| + 1] == hand + [Last(deck)]
    requires deck' + Reverse(hand'[|hand| + 1..]) == Front(deck)
    ensures hand'[..|hand|] == hand
    ensures deck' + Reverse(hand'[|hand|..]) == deck
  {
    assert hand'[..|hand|] == hand'[..|hand| + 1][..|hand|];
    var added := hand'[|hand|..];
    assert added == [Last(deck)] + hand'[|hand| + 1..] by {
      assert added[0] == hand'[..|hand| + 1][|hand|];
    }
    assert added[1..] == hand'[|hand| + 1..];
    assert deck == Front(deck) + [Last(deck)];
  }

  /** The dealer's loop only moves cards from the top of the deck onto the end of the dealer's hand. */
  lemma {:induction false} DealerTurnMovesCards(t: Table)
    requires DealerTurn(t).Some?
    ensures DealerTurn(t).value.dealer[..|t.dealer|] == t.dealer
    ensures DealerTurn(t).value.deck + Reverse(DealerTurn(t).value.dealer[|t.dealer|..]) == t.deck
    decreases |t.deck|
  {
    if !Decided(t) {
      var next := DealerCheck(DrawToDealer(t));
      DealerTurnMovesCards(next);
      var u := DealerTurn(next).value;
      MoveOneMore(t.deck, t.dealer, u.deck, u.dealer);
    }
  }

  /**
   * The player's loop, from state `t` with the answers `actions` still to
   * be read. A blackjack stands and sets `player_wins` without reading an
   * answer; a hit that passes 21 sets `dealer_wins`; a stand runs the
   * dealer's loop; an unreadable answer changes nothing.
   */
  function PlayerTurn(t: Table, actions: seq<Option<Action>>): (e: RoundEnd)
    decreases |actions|, if Decided(t) then 0 else 1
    ensures e.Resolved? ==> Decided(e.table) && e.result == ResultOf(e.table.playerWins, e.table.dealerWins)
    ensures e.Resolved? ==> |t.player| <= |e.table.player| && |t.dealer| <= |e.table.dealer|
  {
    if Decided(t) then Resolved(ResultOf(t.playerWins, t.dealerWins), t)
    else if HasBlackjack(t.player) then
      match DealerTurn(t.(playerWins := true))
      case None => DeckExhausted
      case Some(u) => PlayerTurn(u, actions)
    else if actions == [] then AwaitingInput
    else
      match actions[0]
      case None => PlayerTurn(t, actions[1..])
      case Some(Hit) =>
        if t.deck == [] then DeckExhausted
        else
          var h := DrawToPlayer(t);
          PlayerTurn(if Optimum(h.player) > 21 then h.(dealerWins := true) else h, actions[1..])
      case Some(Stand) =>
        match DealerTurn(t)
        case None => DeckExhausted
        case Some(u) => PlayerTurn(u, actions[1..])
  }

  /** `play_round` on a given deck order and given answers. */
  function PlayRoundSpec(deck: seq<Card>, actions: seq<Option<Action>>): (e: RoundEnd)
    ensures e.Resolved? ==> |e.table.player| >= 2 && |e.table.dealer| >= 1
    ensures e.Resolved? ==> e.result == ResultOf(e.table.playerWins, e.table.dealerWins)
  {
    match Deal(deck)
    case None => DeckExhausted
    case Some(t) => PlayerTurn(t, actions)
  }

  /** What the caller of `play_round` sees: the result, or nothing while the round waits for input. */
  function Reported(e: RoundEnd): Option<GameResult>
  {
    match e
    case Resolved(g, _) => Some(g)
    case _ => None
  }

  // ---------------------------------------------------------------------
  // Properties of a round

  /** Why a side has won, as the flags record it. */
  ghost predicate Justified(t: Table)
  {
    (t.playerWins && !t.dealerWins ==>
      Optimum(t.player) <= 21 && (HasBlackjack(t.player) || Optimum(t.dealer) > 21)) &&
    (t.dealerWins && !t.playerWins ==>
      Optimum(t.player) > 21 || HasBlackjack(t.dealer) ||
      (Optimum(t.dealer) <= 21 && Optimum(t.dealer) > Optimum(t.player)))
  }

  lemma {:induction false} DealerTurnJustified(t: Table)
    requires !Decided(t) && Optimum(t.player) <= 21
    requires DealerTurn(t).Some?
    ensures Justified(DealerTurn(t).value)
    decreases |t.deck|
  {
    var u := DealerCheck(DrawToDealer(t));
    if !Decided(u) {
      DealerTurnJustified(u);
    }
  }

  /**
   * Every round that ends ends with exactly one flag set, for a reason: the
   * player wins only holding 21 or less, with a blackjack or against a dealer
   * past 21; a hand past 21 always loses.
   */
  lemma {:induction false} PlayerTurnOutcome(t: Table, actions: seq<Option<Action>>)
    requires !(t.playerWins && t.dealerWins) && Justified(t)
    requires !Decided(t) ==> AcesLowTotal(t.player) <= 21
    ensures PlayerTurn(t, actions).Resolved? ==>
      var e := PlayerTurn(t, actions);
      e.table.playerWins != e.table.dealerWins && Justified(e.table) &&
      e.result != Draw && (e.result == Win <==> e.table.playerWins) &&
      (Optimum(e.table.player) > 21 ==> e.result == Lose)
    decreases |actions|, if Decided(t) then 0 else 1
  {
    if Decided(t) {
    } else if HasBlackjack(t.player) {
      var b := t.(playerWins := true);
      if DealerTurn(b).Some? {
        PlayerTurnOutcome(DealerTurn(b).value, actions);
      }
    } else if actions != [] {
      match actions[0]
      case None =>
        PlayerTurnOutcome(t, actions[1..]);
      case Some(Hit) =>
        if t.deck != [] {
          var h := DrawToPlayer(t);
          PlayerTurnOutcome(if Optimum(h.player) > 21 then h.(dealerWins := true) else h, actions[1..]);
        }
      case Some(Stand) =>
        if DealerTurn(t).Some? {
          DealerTurnJustified(t);
          PlayerTurnOutcome(DealerTurn(t).value, actions[1..]);
        }
    }
  }

  /**
   * `u` is `t` after some draws: both hands only had cards appended, the
   * deck only lost cards from its top, and no card appeared or vanished.
   */
  predicate Grows(t: Table, u: Table)
  {
    |t.player| <= |u.player| && u.player[..|t.player|] == t.player &&
    |t.dealer| <= |u.dealer| && u.dealer[..|t.dealer|] == t.dealer &&
    |u.deck| <= |t.deck| && u.deck == t.deck[..|u.deck|] &&
    |u.deck| + |u.player| + |u.dealer| == |t.deck| + |t.player| + |t.dealer|
  }

  lemma GrowsTransitive(t: Table, u: Table, w: Table)
    requires Grows(t, u) && Grows(u, w)
    ensures Grows(t, w)
  {
    assert w.player[..|t.player|] == w.player[..|u.player|][..|t.player|];
    assert w.dealer[..|t.dealer|] == w.dealer[..|u.dealer|][..|t.dealer|];
    assert t.deck[..|w.deck|] == t.deck[..|u.deck|][..|w.deck|];
  }

  /** The dealer's loop is a run of draws. */
  lemma DealerTurnGrows(t: Table)
    requires DealerTurn(t).Some?
    ensures Grows(t, DealerTurn(t).value)
  {
    var u := DealerTurn(t).value;
    DealerTurnMovesCards(t);
    assert u.deck == (u.deck + Reverse(u.dealer[|t.dealer|..]))[..|u.deck|];
  }

  /** A hit is a draw, whether or not it passes 21. */
  lemma DrawToPlayerGrows(t: Table, bust: bool)
    requires t.deck != []
    ensures Grows(t, DrawToPlayer(t).(dealerWins := bust || t.dealerWins))
  {
    assert (t.player + [Last(t.deck)])[..|t.player|] == t.player;
  }

  /**
   * The player's loop only deals cards: from the top of the deck onto the
   * end of the player's or the dealer's hand.
   */
  lemma {:induction false} PlayerTurnAppends(t: Table, actions: seq<Option<Action>>)
    requires PlayerTurn(t, actions).Resolved?
    ensures Grows(t, PlayerTurn(t, actions).table)
    decreases |actions|, if Decided(t) then 0 else 1
  {
    if Decided(t) {
    } else if HasBlackjack(t.player) {
      var b := t.(playerWins := true);
      var u := DealerTurn(b).value;
      DealerTurnGrows(b);
      PlayerTurnAppends(u, actions);
      GrowsTransitive(t, u, PlayerTurn(u, actions).table);
    } else {
      match actions[0]
      case None =>
        PlayerTurnAppends(t, actions[1..]);
      case Some(Hit) =>
        var h := DrawToPlayer(t);
        var u := if Optimum(h.player) > 21 then h.(dealerWins := true) else h;
        DrawToPlayerGrows(t, Optimum(h.player) > 21);
        PlayerTurnAppends(u, actions[1..]);
        GrowsTransitive(t, u, PlayerTurn(u, actions[1..]).table);
      case Some(Stand) =>
        var u := DealerTurn(t).value;
        DealerTurnGrows(t);
        PlayerTurnAppends(u, actions[1..]);
        GrowsTransitive(t, u, PlayerTurn(u, actions[1..]).table);
    }
  }

  /**
   * A finished round holds the cards of the deck it started from: what is
   * left is the bottom of that deck, and the two hands hold the rest.
   */
  lemma RoundKeepsDeck(deck: seq<Card>, actions: seq<Option<Action>>)
    requires PlayRoundSpec(deck, actions).Resolved?
    ensures var u := PlayRoundSpec(deck, actions).table;
      |u.deck| + |u.player| + |u.dealer| == |deck| && u.deck == deck[..|u.deck|]
  {
    var t := Deal(deck).value;
    PlayerTurnAppends(t, actions);
    var u := PlayerTurn(t, actions).table;
    assert t.deck == deck[..|t.deck|];
    assert deck[..|u.deck|] == deck[..|t.deck|][..|u.deck|];
  }

  /** `GameResult::Draw` is never produced, for any deck and any answers. */
  lemma DrawUnreachable(deck: seq<Card>, actions: seq<Option<Action>>)
    ensures PlayRoundSpec(deck, actions).Resolved? ==> PlayRoundSpec(deck, actions).result != Draw
    ensures Reported(PlayRoundSpec(deck, actions)) != Some(Draw)
  {
    if Deal(deck).Some? {
      PlayerTurnOutcome(Deal(deck).value, actions);
    }
  }

  /** A dealt blackjack wins at once: no answer is read and the dealer draws nothing. */
  lemma PlayerBlackjackWins(deck: seq<Card>, actions: seq<Option<Action>>)
    requires Deal(deck).Some? && HasBlackjack(Deal(deck).value.player)
    ensures PlayRoundSpec(deck, actions) == Resolved(Win, Deal(deck).value.(playerWins := true))
  {
    var b := Deal(deck).value.(playerWins := true);
    assert DealerTurn(b) == Some(b);
    assert PlayerTurn(b, actions) == Resolved(Win, b);
  }

  /** A hit that takes the player past 21 loses, whatever the dealer holds and whatever comes next. */
  lemma HitPastTwentyOneLoses(t: Table, rest: seq<Option<Action>>)
    requires !Decided(t) && !HasBlackjack(t.player) && t.deck != []
    requires Optimum(t.player + [Last(t.deck)]) > 21
    ensures PlayerTurn(t, [Some(Hit)] + rest).Resolved?
    ensures PlayerTurn(t, [Some(Hit)] + rest).result == Lose
    ensures PlayerTurn(t, [Some(Hit)] + rest).table.dealer == t.dealer
  {
    assert ([Some(Hit)] + rest)[1..] == rest;
  }

  /** An unreadable answer is skipped and changes nothing. */
  lemma InvalidActionSkipped(t: Table, rest: seq<Option<Action>>)
    requires !Decided(t) && !HasBlackjack(t.player)
    ensures PlayerTurn(t, [None] + rest) == PlayerTurn(t, rest)
  {
    assert ([None] + rest)[1..] == rest;
  }

  /** The dealer's loop does not run out of cards while both hands can still draw. */
  lemma {:induction false} DealerTurnHasCards(t: Table)
    requires AcesLowTotal(t.player) <= 21
    requires !Decided(t) ==> AcesLowTotal(t.dealer) <= 21
    requires |t.deck| + |t.player| + |t.dealer| >= 43
    ensures DealerTurn(t).Some?
    decreases |t.deck|
  {
    if !Decided(t) {
      var u := DealerCheck(DrawToDealer(t));
      if !Decided(u) {
        DealerTurnHasCards(u);
      }
    }
  }

  lemma {:induction false} PlayerTurnHasCards(t: Table, actions: seq<Option<Action>>)
    requires !Decided(t) ==> AcesLowTotal(t.player) <= 21 && |t.dealer| == 1
    requires |t.deck| + |t.player| + |t.dealer| >= 43
    ensures PlayerTurn(t, actions) != DeckExhausted
    decreases |actions|, if Decided(t) then 0 else 1
  {
    if Decided(t) {
    } else if HasBlackjack(t.player) {
      var b := t.(playerWins := true);
      PlayerTurnHasCards(DealerTurn(b).value, actions);
    } else if actions != [] {
      match actions[0]
      case None =>
        PlayerTurnHasCards(t, actions[1..]);
      case Some(Hit) =>
        var h := DrawToPlayer(t);
        PlayerTurnHasCards(if Optimum(h.player) > 21 then h.(dealerWins := true) else h, actions[1..]);
      case Some(Stand) =>
        DealerTurnHasCards(t);
        PlayerTurnHasCards(DealerTurn(t).value, actions[1..]);
    }
  }

  /**
   * `deck.pop().unwrap()` never fails in a round played from a deck of 43
   * cards or more, and so never from the 52-card deck: a hand that keeps
   * drawing holds at most 21 cards, since each card adds at least 1 to its
   * aces-low total.
   */
  lemma DeckNeverRunsOut(deck: seq<Card>, actions: seq<Option<Action>>)
    requires |deck| >= 43
    ensures PlayRoundSpec(deck, actions) != DeckExhausted
  {
    PlayerTurnHasCards(Deal(deck).value, actions);
  }

  // ---------------------------------------------------------------------
  // The loops

  // One pass of each loop, as the functions above describe it.

  lemma BlackjackStep(t: Table, actions: seq<Option<Action>>)
    requires !Decided(t) && HasBlackjack(t.player)
    ensures PlayerTurn(t, actions) == PlayerTurn(t.(playerWins := true), actions)
  {
    assert DealerTurn(t.(playerWins := true)) == Some(t.(playerWins := true));
  }

  lemma AnswerStep(t: Table, actions: seq<Option<Action>>)
    requires !Decided(t) && !HasBlackjack(t.player) && actions != []
    ensures actions[0] == None ==> PlayerTurn(t, actions) == PlayerTurn(t, actions[1..])
    ensures actions[0] == Some(Hit) && t.deck != [] ==>
      var h := DrawToPlayer(t);
      PlayerTurn(t, actions) == PlayerTurn(if Optimum(h.player) > 21 then h.(dealerWins := true) else h, actions[1..])
    ensures actions[0] == Some(Stand) && DealerTurn(t).Some? ==>
      PlayerTurn(t, actions) == PlayerTurn(DealerTurn(t).value, actions[1..])
  {
  }

  lemma DealerStep(t: Table)
    requires !Decided(t) && t.deck != []
    ensures DealerTurn(t) == DealerTurn(DealerCheck(DrawToDealer(t)))
  {
  }

  lemma ReversePair(p: seq<Card>)
    requires |p| == 2
    ensures Reverse(p) == [p[1], p[0]]
  {
    assert Reverse(p[1..]) == [p[1]];
  }

  /** The method's three pops and pushes leave the table `Deal` describes. */
  lemma DealtTable(shuffled: seq<Card>, deck: seq<Card>, player: seq<Card>, dealer: seq<Card>)
    requires |player| == 2 && |dealer| == 1
    requires deck + dealer + Reverse(player) == shuffled
    ensures Deal(shuffled) == Some(Table(deck, player, dealer, false, false))
  {
    ReversePair(player);
    assert dealer == [dealer[0]];
    var n := |shuffled|;
    assert shuffled[..n - 3] == deck;
    assert [shuffled[n - 1], shuffled[n - 2]] == player;
  }

  /**
   * The dealer's loop of `play_round`, on the round's deck and hands: it
   * draws until a flag is set, as `DealerTurn` describes.
   */
  method DealerDraws(deck: CardSet, player: CardSet, dealer: CardSet, playerWins0: bool, dealerWins0: bool)
    returns (playerWins: bool, dealerWins: bool)
    requires deck != dealer && deck != player && player != dealer
    requires DealerTurn(Table(deck.cards, player.cards, dealer.cards, playerWins0, dealerWins0)).Some?
    requires AcesLowTotal(player.cards) <= 21
    requires |deck.cards| + |player.cards| + |dealer.cards| == 52
    requires !dealerWins0 && !playerWins0 ==> AcesLowTotal(dealer.cards) <= 21
    modifies deck, dealer
    ensures Table(deck.cards, player.cards, dealer.cards, playerWins, dealerWins)
      == DealerTurn(Table(old(deck.cards), player.cards, old(dealer.cards), playerWins0, dealerWins0)).value
  {
    playerWins, dealerWins := playerWins0, dealerWins0;
    while !dealerWins && !playerWins
      invariant DealerTurn(Table(deck.cards, player.cards, dealer.cards, playerWins, dealerWins))
        == DealerTurn(Table(old(deck.cards), player.cards, old(dealer.cards), playerWins0, dealerWins0))
      invariant |deck.cards| + |player.cards| + |dealer.cards| == 52
      invariant !dealerWins && !playerWins ==> AcesLowTotal(dealer.cards) <= 21
      decreases |deck.cards|
    {
      ghost var t := Table(deck.cards, player.cards, dealer.cards, playerWins, dealerWins);
      DealerStep(t);
      ghost var next := DealerCheck(DrawToDealer(t));
      var c := deck.Pop();
      dealer.Push(c.value);
      assert deck.cards == next.deck && dealer.cards == next.dealer && player.cards == next.player;
      if HasBlackjack(dealer.cards) {
        dealerWins := true;
      } else if Optimum(dealer.cards) <= 21 && Optimum(dealer.cards) > Optimum(player.cards) {
        dealerWins := true;
      } else if Optimum(dealer.cards) > 21 {
        playerWins := true;
      }
      assert playerWins == next.playerWins && dealerWins == next.dealerWins;
      assert Table(deck.cards, player.cards, dealer.cards, playerWins, dealerWins) == next;
    }
  }

  /**
   * `play_round`, given the order the shuffle puts the deck in and the
   * player's answers. The result is `None` when the answers run out
   * before the round ends.
   */
  method PlayRound(shuffled: seq<Card>, actions: seq<Option<Action>>) returns (result: Option<GameResult>)
    requires IsShuffledDeck(shuffled)
    ensures result == Reported(PlayRoundSpec(shuffled, actions))
    ensures PlayRoundSpec(shuffled, actions) != DeckExhausted
    ensures result != Some(Draw)
  {
    assert |shuffled| == 52 by {
      assert |multiset(shuffled)| == |multiset(FullDeck())|;
    }
    var deck := CardSet.NewShuffled(shuffled);
    result := PlayFrom(deck, actions);
    DeckNeverRunsOut(shuffled, actions);
    DrawUnreachable(shuffled, actions);
  }

  /** The rest of `play_round`, once the deck is shuffled: the deal and the two loops. */
  method PlayFrom(deck: CardSet, actions: seq<Option<Action>>) returns (result: Option<GameResult>)
    requires |deck.cards| == 52
    modifies deck
    ensures result == Reported(PlayRoundSpec(old(deck.cards), actions))
  {
    ghost var shuffled := deck.cards;
    var player := new CardSet();
    var dealer := new CardSet();

    for k := 0 to 2
      invariant deck.cards + Reverse(player.cards) == shuffled
      invariant |player.cards| == k
      invariant dealer.cards == []
    {
      var c := deck.Pop();
      assert Reverse(player.cards + [c.value])[1..] == Reverse(player.cards);
      player.Push(c.value);
    }
    var c := deck.Pop();
    dealer.Push(c.value);
    DealtTable(shuffled, deck.cards, player.cards, dealer.cards);

    var playerWins := false;
    var dealerWins := false;
    var i := 0;

    while !dealerWins && !playerWins
      invariant 0 <= i <= |actions|
      invariant PlayerTurn(Table(deck.cards, player.cards, dealer.cards, playerWins, dealerWins), actions[i..])
        == PlayRoundSpec(shuffled, actions)
      invariant |deck.cards| + |player.cards| + |dealer.cards| == 52
      invariant !dealerWins && !playerWins ==> |dealer.cards| == 1 && AcesLowTotal(player.cards) <= 21
      decreases |actions| - i, if dealerWins || playerWins then 0 else 1
    {
      ghost var before := Table(deck.cards, player.cards, dealer.cards, playerWins, dealerWins);
      var desired: Option<Action>;
      if HasBlackjack(player.cards) {
        BlackjackStep(before, actions[i..]);
        playerWins := true;
        desired := Some(Stand);
      } else {
        if i == |actions| {
          return None;
        }
        AnswerStep(before, actions[i..]);
        assert actions[i..][1..] == actions[i + 1..];
        desired := actions[i];
        i := i + 1;
      }

      match desired
      case Some(Hit) =>
        var c := deck.Pop();
        player.Push(c.value);
        if Optimum(player.cards) > 21 {
          dealerWins := true;
        }
      case Some(Stand) =>
        DealerTurnHasCards(Table(deck.cards, player.cards, dealer.cards, playerWins, dealerWins));
        playerWins, dealerWins := DealerDraws(deck, player, dealer, playerWins, dealerWins);
      case None =>
    }

    result := Some(ResultOf(playerWins, dealerWins));
  }
}
