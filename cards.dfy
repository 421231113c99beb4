/**
 * Playing cards: a suit, a rank (the program calls it `Value`), the two
 * numeric values of a card and its printed name.
 */
module Cards {
  import opened Wrappers

  datatype Suit = Clubs | Diamonds | Hearts | Spades

  datatype Value = Ace | Two | Three | Four | Five | Six | Seven | Eight | Nine | Ten | Jack | Queen | King

  datatype Card = Card(suit: Suit, value: Value)

  /** The rank code of a rank, in the order the ranks are declared: Ace is 1, King 13. */
  function RankCode(v: Value): (n: int)
    ensures 1 <= n <= 13
  {
    match v
    case Ace => 1
    case Two => 2
    case Three => 3
    case Four => 4
    case Five => 5
    case Six => 6
    case Seven => 7
    case Eight => 8
    case Nine => 9
    case Ten => 10
    case Jack => 11
    case Queen => 12
    case King => 13
  }

  /** `Card::from_value`: codes 1..13 name the ranks in order; every other code is an Ace. */
  function FromValue(s: Suit, v: int): (c: Card)
    ensures c.suit == s
    ensures 1 <= v <= 13 ==> RankCode(c.value) == v
    ensures !(1 <= v <= 13) ==> c.value == Ace
  {
    var cv :=
      match v
      case 1 => Ace
      case 2 => Two
      case 3 => Three
      case 4 => Four
      case 5 => Five
      case 6 => Six
      case 7 => Seven
      case 8 => Eight
      case 9 => Nine
      case 10 => Ten
      case 11 => Jack
      case 12 => Queen
      case 13 => King
      case _ => Ace;
    Card(s, cv)
  }

  /** `FromValue` undoes `RankCode`: every card is built from its own rank code. */
  lemma FromRankCode(s: Suit, v: Value)
    ensures FromValue(s, RankCode(v)) == Card(s, v)
  {
    match v
    case Ace =>
    case Two =>
    case Three =>
    case Four =>
    case Five =>
    case Six =>
    case Seven =>
    case Eight =>
    case Nine =>
    case Ten =>
    case Jack =>
    case Queen =>
    case King =>
  }

  /** `to_value_aces_low`: an Ace counts 1, a numbered card its number, a face card 10. */
  function AcesLow(c: Card): (n: int)
    ensures 1 <= n <= 10
    ensures n == if RankCode(c.value) < 10 then RankCode(c.value) else 10
  {
    match c.value
    case Ace => 1
    case Two => 2
    case Three => 3
    case Four => 4
    case Five => 5
    case Six => 6
    case Seven => 7
    case Eight => 8
    case Nine => 9
    case Ten => 10
    case Jack => 10
    case Queen => 10
    case King => 10
  }

  /** `to_value_aces_high`: an Ace counts 11, every other card its low value. */
  function AcesHigh(c: Card): (n: int)
    ensures 2 <= n <= 11
    ensures c.value == Ace ==> n == AcesLow(c) + 10
    ensures c.value != Ace ==> n == AcesLow(c)
  {
    match c.value
    case Ace => 11
    case _ => AcesLow(c)
  }

  /** `get_value_string`: one word per rank, read back by `ValueNamed`. */
  function ValueName(v: Value): (name: string)
    ensures name != [] && ' ' !in name
    ensures ValueNamed(name) == Some(v)
  {
    match v
    case Ace => "Ace"
    case Two => "Two"
    case Three => "Three"
    case Four => "Four"
    case Five => "Five"
    case Six => "Six"
    case Seven => "Seven"
    case Eight => "Eight"
    case Nine => "Nine"
    case Ten => "Ten"
    case Jack => "Jack"
    case Queen => "Queen"
    case King => "King"
  }

  /** `get_suit_string`: one name per suit, read back by `SuitNamed`. */
  function SuitName(s: Suit): (name: string)
    ensures SuitNamed(name) == Some(s)
  {
    match s
    case Clubs => "Clubs"
    case Diamonds => "Diamonds"
    case Hearts => "Hearts"
    case Spades => "Spades"
  }

  /**
   * The `Display` of a card: "<rank> of <suit>". The name reads back as the
   * card, so no two cards print the same.
   */
  function CardName(c: Card): (name: string)
    ensures ParseCardName(name) == Some(c)
  {
    var vn, sn := ValueName(c.value), SuitName(c.suit);
    var s := vn + " of " + sn;
    assert s[|vn|] == ' ';
    assert FirstSpace(s) == |vn|;
    assert s[..|vn|] == vn;
    assert s[|vn|..|vn| + 4] == " of ";
    assert s[|vn| + 4..] == sn;
    s
  }

  // Reading a name back. These are not part of the program; they are the
  // inverse against which the printed names are checked: no two cards print
  // the same.

  function ValueNamed(name: string): Option<Value>
  {
    if name == "Ace" then Some(Ace)
    else if name == "Two" then Some(Two)
    else if name == "Three" then Some(Three)
    else if name == "Four" then Some(Four)
    else if name == "Five" then Some(Five)
    else if name == "Six" then Some(Six)
    else if name == "Seven" then Some(Seven)
    else if name == "Eight" then Some(Eight)
    else if name == "Nine" then Some(Nine)
    else if name == "Ten" then Some(Ten)
    else if name == "Jack" then Some(Jack)
    else if name == "Queen" then Some(Queen)
    else if name == "King" then Some(King)
    else None
  }

  function SuitNamed(name: string): Option<Suit>
  {
    if name == "Clubs" then Some(Clubs)
    else if name == "Diamonds" then Some(Diamonds)
    else if name == "Hearts" then Some(Hearts)
    else if name == "Spades" then Some(Spades)
    else None
  }

  /** The position of the first space in `s`, or `|s|` when there is none. */
  function FirstSpace(s: string): (i: nat)
    ensures i <= |s|
    ensures forall k :: 0 <= k < i ==> s[k] != ' '
    ensures i < |s| ==> s[i] == ' '
  {
    if s == [] || s[0] == ' ' then 0 else 1 + FirstSpace(s[1..])
  }

  /** Splits "<rank> of <suit>" at its first space and reads both names. */
  function ParseCardName(s: string): Option<Card>
  {
    var i := FirstSpace(s);
    if i + 4 <= |s| && s[i..i + 4] == " of " then
      match (ValueNamed(s[..i]), SuitNamed(s[i + 4..]))
      case (Some(v), Some(u)) => Some(Card(u, v))
      case _ => None
    else None
  }

  /** Two cards with the same printed name are the same card. */
  lemma CardNamesDistinct(c: Card, d: Card)
    requires CardName(c) == CardName(d)
    ensures c == d
  {
  }
}
