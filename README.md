# blackjack_rs in Dafny

This project models the round engine of a single-player blackjack game (`src/main.rs`).
The player bets against the stake, plays a round against the dealer, and the stake moves by
the bet. This repeats while the stake is above zero.

Modules, one per component of `main.rs`:

- `Cards` (`cards.dfy`): `Suit`, `Value` (the rank) and `Card`.
  - `Card::from_value`, the aces-low and aces-high values, and the printed names.
  - A reader for the printed names (`ParseCardName`). It is the inverse the names are checked against.
- `CardSets` (`card_set.dfy`): the class `CardSet`, one `seq<Card>` field used for the deck and for both hands.
  - `push`, `pop`, `deck()` (two nested loops) and `new_shuffled`.
  - The derived values as functions of the sequence: the two folds, `get_value_optimum` and `has_blackjack`.
  - `FullDeck`, the deck `deck()` builds.
- `Round` (`round.dfy`): `play_round`, first as functions over the round's local state.
  - The state is the deck, the two hands and the flags `player_wins` and `dealer_wins`.
  - `DealerTurn` follows the dealer's loop and `PlayerTurn` the player's loop.
  - The method `PlayRound` runs the same loops on three `CardSet` objects and is proved to return what the functions describe.
  - `PlayRound` shuffles. `PlayFrom` deals and runs the player's loop. `DealerDraws` is the dealer's inner loop.
- `Session` (`session.dfy`): the betting loop of `main`, over a stake and bets of Rust type `i32`.
- `Wrappers` (`wrappers.dfy`): `Option`.

Inputs the program reads or draws at random are parameters:

- The order the shuffle leaves the deck in is a sequence of cards. It must hold every card of the full deck once.
- The player's answers are a sequence of `Option<Action>`. `None` is a line that is neither "hit" nor "stand".
- The bets are a sequence of `Option<i32>`. `None` is a line that does not parse.

At end of input, `read_line` leaves the buffer empty. An empty line is neither a bet nor an answer,
so the program prints "Invalid bet!" or "Invalid action. Try again." and asks again, forever.
The model stops where those empty lines begin:
`PlayRound` returns `None`, `PlayRoundSpec` returns `AwaitingInput` and the session returns `Waiting`.

Where the code and its design notes differ, the model follows the code:

- A player dealt a blackjack sets `player_wins` before the dealer's loop starts, so the dealer draws nothing.
  The notes say the dealer still plays.
- The session loop runs while the stake is above 0. Zero and negative bets are accepted.
  A won negative bet can leave the stake below 0, and the session then ends.
- A tie does not stop the dealer: it draws again (lines 81-85).

## Model

| member | source | states |
|---|---|---|
| `Cards.RankCode` | src/main.rs:125-126 | The ranks are numbered 1 to 13 in declaration order |
| `Cards.FromValue` | src/main.rs:136-154 | Codes 1..13 give the ranks in order; any other code gives an Ace; the suit is kept |
| `Cards.FromRankCode` | src/main.rs:136-154 | `from_value` inverts the rank numbering: every card is built from its own code |
| `Cards.AcesLow` | src/main.rs:156-172 | The low value is the rank code capped at 10, so it lies in 1..10 |
| `Cards.AcesHigh` | src/main.rs:173-178 | The high value is the low value plus 10 for an Ace and equal to it otherwise |
| `Cards.ValueName` | src/main.rs:180-196 | Each rank's name is one word without a space and reads back as that rank |
| `Cards.SuitName` | src/main.rs:198-205 | Each suit's name reads back as that suit |
| `Cards.CardName` | src/main.rs:208-212 | The `Display` text "<rank> of <suit>" reads back as the card printed |
| `Cards.CardNamesDistinct` | src/main.rs:208-212 | Two cards with the same printed name are the same card |
| `CardSets.AcesLowTotal` | src/main.rs:254-256 | The aces-low total of n cards lies between n and 10n |
| `CardSets.AcesHighTotal` | src/main.rs:258-260 | The aces-high total is the aces-low total plus 10 per ace |
| `CardSets.Optimum` | src/main.rs:262-268 | Optimum lies between the two totals, is one of them, is the aces-high total when that is 21 or less, and passes 21 exactly when the aces-low total does |
| `CardSets.HasBlackjack` | src/main.rs:270-272 | A blackjack hand has two cards and optimum 21 |
| `CardSets.BlackjackIsAceAndTen` | src/main.rs:270-272 | A hand is a blackjack exactly when it is two cards, an Ace and a card worth 10 |
| `CardSets.PushTotals` | src/main.rs:222-224 | Pushing a card adds its low and high values to the hand's totals |
| `CardSets.HandExamples` | src/main.rs:254-272 | Ace and King is a blackjack; Ace, Ace, Nine totals 31 high and 11 optimum; three Sevens are no blackjack |
| `CardSets.SuitOfIndex` | src/main.rs:234-240 | The outer counter 1..4 gives the suits in declaration order; any other counter gives Spades |
| `CardSets.FullDeck` | src/main.rs:230-245 | The built deck has 52 cards |
| `CardSets.DeckIndexInverse` | src/main.rs:230-245 | Suit-major order: card k is suit k/13 and rank k%13+1, and every card sits at its index |
| `CardSets.DeckHasEveryCardOnce` | src/main.rs:230-245 | Every suit and rank pair occurs in the deck exactly once |
| `CardSets.CardSet.constructor` | src/main.rs:218-220 | A new set is empty |
| `CardSets.CardSet.Push` | src/main.rs:222-224 | The card is appended; the earlier cards are unchanged |
| `CardSets.CardSet.Pop` | src/main.rs:226-228 | The last card is removed and returned; an empty set gives `None` and stays empty; the rest is unchanged |
| `CardSets.CardSet.Deck` | src/main.rs:230-245 | The nested loops fill a fresh set with exactly `FullDeck()` |
| `CardSets.CardSet.NewShuffled` | src/main.rs:247-252 | The fresh deck holds the given permutation of the full deck |
| `Round.ResultOf` | src/main.rs:94-98 | Draw when both flags are set, Win when only `player_wins` is, Lose when `player_wins` is not |
| `Round.Deal` | src/main.rs:43-46 | The player gets the top two cards and the dealer the third; no flag is set |
| `Round.DealerCheck` | src/main.rs:78-85 | After a dealer draw, `dealer_wins` is set exactly on a dealer blackjack or a dealer optimum of 21 or less above the player's; `player_wins` exactly on a dealer optimum above 21; never both |
| `Round.DealerTurn` | src/main.rs:75-86 | The dealer's loop ends with a flag set, not both, leaves the player's hand alone and conserves the cards |
| `Round.DealerTurnMovesCards` | src/main.rs:75-76 | Each pass moves the deck's top card onto the end of the dealer's hand; nothing else changes |
| `Round.PlayerTurn` | src/main.rs:51-98 | A resolved round has a flag set and its result read off the flags; neither hand has fewer cards than at the start |
| `Round.PlayerTurnAppends` | src/main.rs:51-93 | The player's loop only deals: each hand keeps its cards and gains cards at the end, the deck keeps its bottom part, and no card appears or vanishes |
| `Round.RoundKeepsDeck` | src/main.rs:39-98 | After a round, the deck left is the bottom of the deck it started from, and the hands hold all the other cards |
| `Round.PlayRoundSpec` | src/main.rs:38-98 | A resolved round ends with at least two player cards and one dealer card |
| `Round.DealerTurnJustified` | src/main.rs:75-86 | The flag the dealer's loop sets has its reason: blackjack, higher optimum, or a dealer past 21 |
| `Round.PlayerTurnOutcome` | src/main.rs:51-98 | Exactly one flag is set; Win only holding 21 or less with a blackjack or against a dealer past 21; a hand past 21 loses |
| `Round.DrawUnreachable` | src/main.rs:94-97 | `GameResult::Draw` is never produced |
| `Round.PlayerBlackjackWins` | src/main.rs:58-62 | A dealt blackjack wins without reading an answer and without a dealer draw |
| `Round.HitPastTwentyOneLoses` | src/main.rs:68-72 | A hit past 21 ends the round as Lose with the dealer's hand untouched |
| `Round.InvalidActionSkipped` | src/main.rs:88-91 | An unreadable answer is skipped and changes nothing |
| `Round.DealerTurnHasCards` | src/main.rs:75-76 | The dealer's loop always finds a card when at least 43 cards are in play |
| `Round.PlayerTurnHasCards` | src/main.rs:51-93 | The player's loop never pops an empty deck when at least 43 cards are in play |
| `Round.DeckNeverRunsOut` | src/main.rs:44-46 | No `deck.pop().unwrap()` of a round fails for a deck of 43 cards or more |
| `Round.DealerDraws` | src/main.rs:75-86 | The dealer's loop on the objects leaves the state `DealerTurn` describes |
| `Round.PlayFrom` | src/main.rs:40-98 | The deal and the player's loop on the objects return the result the specification gives |
| `Round.PlayRound` | src/main.rs:38-99 | On a shuffled full deck the round returns the specified result, never runs out of cards and never returns Draw |
| `Session.AcceptBet` | src/main.rs:14-20 | A bet is taken exactly when it parses and is at most the stake; zero and negative bets pass |
| `Session.Settle` | src/main.rs:22-32 | A win adds the bet, a loss subtracts it, a draw returns the stake unchanged; an `i32` overflow is a panic, and every other result is an `i32` |
| `Session.SettleWithinStake` | src/main.rs:22-32 | With 0 <= bet <= stake, a loss or draw never overflows and the stake stays at 0 or above |
| `Session.NegativeBetLossRaisesStake` | src/main.rs:9-30 | While the stake is above 0, a negative bet is accepted, and losing it raises the stake |
| `Session.RefusedBetSkipped` | src/main.rs:14-19 | A refused bet plays no round and leaves the stake unchanged; the next line is read |
| `Session.WinThenLoseAll` | src/main.rs:7-34 | From 500, a won bet of 100 gives 600, and a lost bet of 600 after it ends the game at 0 |
| `Session.PlayedStep` | src/main.rs:14-32 | An accepted bet and a finished round move the session on to the next line and round from the settled stake |
| `Session.SessionSpec` | src/main.rs:9-33 | The session ends for want of money only at a stake of 0 or below, and waits for input only with a stake above 0 |
| `Session.StakeStaysNonNegative` | src/main.rs:9-33 | With bets of 0 or more the stake never goes below 0 and a finished session ends at exactly 0 |
| `Session.Session` | src/main.rs:6-35 | The loop from a stake of 500 ends as the specification says; it stops only at a stake of 0 or below |

## Left out

- All printing (`println!`, `print_hand` at lines 274-277, "Dealer draws …") and the reading of stdin: these are I/O. Answers and bets are inputs.
- The text parsing of an answer (`trim`, `to_ascii_lowercase`, lines 105-109) and of a bet (`parse::<i32>`): the model receives the parse result, `Option<Action>` or `Option<i32>`.
- The random generator of `new_shuffled` (`thread_rng`, `shuffle`) and the uniformity of the shuffle: the permutation it picks is an input, required to be a permutation of the full deck.
- Blocking at the end of input: the program would keep prompting; the model stops and reports that it is waiting.
- `Session.Settle`: models an `i32` overflow as a panic, as a debug build does; the wrap-around of a release build is not modelled.
- `Round.DeckNeverRunsOut`: proves the bound for any deck of 43 cards or more, using only that every card adds at least 1 to the aces-low total; it does not use that the cards of a real deck are distinct.
- `Round.PlayRound` is split into three methods: `PlayRound` shuffles, `PlayFrom` deals and runs the player's loop, and `DealerDraws` runs the dealer's inner loop. The statements and their order are those of `play_round`.
