/**
 * `CardSet`: one ordered sequence of cards, used as the deck and as both
 * hands. The derived values (the aces-low and aces-high totals, the optimum
 * and blackjack) are functions of the sequence; the class holds the
 * sequence and changes it in place.
 */
module CardSets {
  import opened Wrappers
  import opened Cards

  function Last(s: seq<Card>): Card
    requires s != []
  {
    s[|s| - 1]
  }

  function Front(s: seq<Card>): seq<Card>
    requires s != []
  {
    s[..|s| - 1]
  }

  // ---------------------------------------------------------------------
  // Derived values of a hand

  /** `get_value_aces_low`: the left fold of the aces-low values. */
  function AcesLowTotal(h: seq<Card>): (t: int)
    ensures |h| <= t <= 10 * |h|
  {
    if h == [] then 0 else AcesLowTotal(Front(h)) + AcesLow(Last(h))
  }

  /** The number of aces in a hand. */
  function AceCount(h: seq<Card>): (n: nat)
    ensures n <= |h|
  {
    if h == [] then 0 else AceCount(Front(h)) + (if Last(h).value == Ace then 1 else 0)
  }

  /** `get_value_aces_high`: every ace adds 10 to the aces-low total. */
  function AcesHighTotal(h: seq<Card>): (t: int)
    ensures t == AcesLowTotal(h) + 10 * AceCount(h)
  {
    if h == [] then 0 else AcesHighTotal(Front(h)) + AcesHigh(Last(h))
  }

  /**
   * `get_value_optimum`: the larger of the two totals that does not pass 21,
   * falling back to the aces-low total. It passes 21 exactly when the
   * aces-low total does.
   */
  function Optimum(h: seq<Card>): (t: int)
    ensures AcesLowTotal(h) <= t <= AcesHighTotal(h)
    ensures t == AcesLowTotal(h) || t == AcesHighTotal(h)
    ensures AcesHighTotal(h) <= 21 ==> t == AcesHighTotal(h)
    ensures t > 21 <==> AcesLowTotal(h) > 21
  {
    if AcesHighTotal(h) <= 21 then AcesHighTotal(h) else AcesLowTotal(h)
  }

  /** `has_blackjack`: two cards worth 21 with aces high. */
  function HasBlackjack(h: seq<Card>): (b: bool)
    ensures b ==> |h| == 2 && Optimum(h) == 21
  {
    |h| == 2 && AcesHighTotal(h) == 21
  }

  /** Appending a card adds its values to the totals (the fold runs left to right). */
  lemma PushTotals(h: seq<Card>, c: Card)
    ensures AcesLowTotal(h + [c]) == AcesLowTotal(h) + AcesLow(c)
    ensures AcesHighTotal(h + [c]) == AcesHighTotal(h) + AcesHigh(c)
  {
    assert Front(h + [c]) == h;
  }

  /** A blackjack is exactly an ace together with a card worth ten. */
  lemma BlackjackIsAceAndTen(h: seq<Card>)
    ensures HasBlackjack(h) <==>
      |h| == 2 &&
      ((h[0].value == Ace && AcesLow(h[1]) == 10) || (h[1].value == Ace && AcesLow(h[0]) == 10))
  {
    if |h| == 2 {
      assert Front(h) == [h[0]];
      assert Front([h[0]]) == [];
    }
  }

  /** Examples: ace and king is a blackjack; two aces and a nine count 11. */
  lemma HandExamples()
    ensures HasBlackjack([Card(Spades, Ace), Card(Hearts, King)])
    ensures AcesHighTotal([Card(Spades, Ace), Card(Clubs, Ace), Card(Hearts, Nine)]) == 31
    ensures Optimum([Card(Spades, Ace), Card(Clubs, Ace), Card(Hearts, Nine)]) == 11
    ensures !HasBlackjack([Card(Spades, Seven), Card(Clubs, Seven), Card(Hearts, Seven)])
  {
    var bj := [Card(Spades, Ace), Card(Hearts, King)];
    assert Front(bj) == [bj[0]];
    var aan := [Card(Spades, Ace), Card(Clubs, Ace), Card(Hearts, Nine)];
    assert Front(aan) == aan[..2];
    assert Front(aan[..2]) == [aan[0]];
  }

  // ---------------------------------------------------------------------
  // The deck

  /** The suit `deck()` gives its outer loop counter; anything outside 1..4 is Spades. */
  function SuitOfIndex(i: int): (s: Suit)
    ensures 1 <= i <= 4 ==> SuitIndex(s) == i - 1
    ensures !(1 <= i <= 4) ==> s == Spades
  {
    match i
    case 1 => Clubs
    case 2 => Diamonds
    case 3 => Hearts
    case 4 => Spades
    case _ => Spades
  }

  /** The deck `deck()` builds: suit by suit, ranks 1 to 13 inside each suit. */
  function FullDeck(): (d: seq<Card>)
    ensures |d| == 52
  {
    seq(52, k requires 0 <= k < 52 => FromValue(SuitOfIndex(k / 13 + 1), k % 13 + 1))
  }

  /** A deck in some order: every card of the full deck, each as often as there. */
  predicate IsShuffledDeck(s: seq<Card>)
  {
    multiset(s) == multiset(FullDeck())
  }

  /** The position of a suit in the deck's outer loop, from 0. */
  function SuitIndex(s: Suit): (n: int)
    ensures 0 <= n < 4
  {
    match s
    case Clubs => 0
    case Diamonds => 1
    case Hearts => 2
    case Spades => 3
  }

  /** Where a card lies in the unshuffled deck. */
  function DeckIndex(c: Card): (k: int)
    ensures 0 <= k < 52
  {
    13 * SuitIndex(c.suit) + RankCode(c.value) - 1
  }

  lemma DivMod13(q: int, r: int)
    requires 0 <= q && 0 <= r < 13
    ensures (13 * q + r) / 13 == q && (13 * q + r) % 13 == r
  {
  }

  /** The card at `DeckIndex(c)` is `c`, and the card at position `k` has index `k`. */
  lemma DeckIndexInverse(c: Card, k: int)
    requires 0 <= k < 52
    ensures FullDeck()[DeckIndex(c)] == c
    ensures DeckIndex(FullDeck()[k]) == k
  {
    var i := DeckIndex(c);
    DivMod13(SuitIndex(c.suit), RankCode(c.value) - 1);
    assert SuitOfIndex(i / 13 + 1) == c.suit by {
      match c.suit
      case Clubs =>
      case Diamonds =>
      case Hearts =>
      case Spades =>
    }
    FromRankCode(c.suit, c.value);
    DivMod13(k / 13, k % 13);
  }

  lemma {:induction false} DistinctCount(s: seq<Card>, c: Card)
    requires forall i, j :: 0 <= i < j < |s| ==> s[i] != s[j]
    ensures multiset(s)[c] == if c in s then 1 else 0
  {
    if s != [] {
      assert s == Front(s) + [Last(s)];
      DistinctCount(Front(s), c);
      assert Last(s) !in Front(s);
    }
  }

  /** Every suit and rank pair occurs in the deck exactly once. */
  lemma DeckHasEveryCardOnce(c: Card)
    ensures multiset(FullDeck())[c] == 1
  {
    var d := FullDeck();
    forall i, j | 0 <= i < j < |d|
      ensures d[i] != d[j]
    {
      DeckIndexInverse(c, i);
      DeckIndexInverse(c, j);
    }
    DeckIndexInverse(c, 0);
    DistinctCount(d, c);
  }

  // ---------------------------------------------------------------------
  // The container

  class CardSet {
    var cards: seq<Card>

    /** `CardSet::new`. */
    constructor ()
      ensures cards == []
    {
      cards := [];
    }

    /** `push`: appends at the end; the earlier cards stay where they were. */
    method Push(c: Card)
      modifies this
      ensures cards == old(cards) + [c]
    {
      cards := cards + [c];
    }

    /** `pop`: removes and returns the last card, or nothing from an empty set. */
    method Pop() returns (c: Option<Card>)
      modifies this
      ensures old(cards) == [] ==> c == None && cards == []
      ensures old(cards) != [] ==> c == Some(Last(old(cards))) && cards == Front(old(cards))
      ensures c.Some? ==> old(cards) == cards + [c.value]
    {
      if cards == [] {
        c := None;
      } else {
        c := Some(Last(cards));
        cards := Front(cards);
      }
    }

    /** `deck`: the 52 cards, filled in by two nested loops. */
    static method Deck() returns (d: CardSet)
      ensures fresh(d)
      ensures d.cards == FullDeck()
    {
      d := new CardSet();
      for i := 1 to 5
        invariant d.cards == FullDeck()[..13 * (i - 1)]
      {
        for j := 1 to 14
          invariant d.cards == FullDeck()[..13 * (i - 1) + (j - 1)]
        {
          var s := SuitOfIndex(i);
          DivMod13(i - 1, j - 1);
          assert FullDeck()[13 * (i - 1) + (j - 1)] == FromValue(s, j);
          d.Push(FromValue(s, j));
        }
      }
    }

    /**
     * `new_shuffled`: the deck, put into the order `order`. The random
     * generator is not modelled; its choice of permutation is the input.
     */
    static method NewShuffled(order: seq<Card>) returns (d: CardSet)
      requires IsShuffledDeck(order)
      ensures fresh(d)
      ensures d.cards == order
    {
      d := Deck();
      d.cards := order;
    }
  }
}
