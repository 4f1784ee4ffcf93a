/** Cards of the Dog game: the card record, the doubled 110-card deck
    (dog.py:46-80) and the movement values of a rank (dog.py:224-240). */
module Cards {

  /** A card; jokers have the empty suit. Equality is by value. */
  datatype Card = Card(suit: string, rank: string)

  const Suits: seq<string> := ["♠", "♥", "♦", "♣"]

  /** The thirteen ranks that come in four suits. */
  const SuitedRanks: seq<string> := ["2", "3", "4", "5", "6", "7", "8", "9", "10", "J", "Q", "K", "A"]

  const Joker: Card := Card("", "JKR")

  /** Ranks that may bring a marble out of the kennel. */
  const StartingRanks: set<string> := {"A", "K", "JKR"}

  /** One copy of the deck: each suited rank in the four suits, rank by rank,
      followed by three jokers. */
  function SingleDeck(): (d: seq<Card>)
    ensures |d| == 55
    ensures forall i :: 0 <= i < 52 ==> d[i] == Card(Suits[i % 4], SuitedRanks[i / 4])
    ensures forall i :: 52 <= i < 55 ==> d[i] == Joker
  {
    seq(52, i requires 0 <= i < 52 => Card(Suits[i % 4], SuitedRanks[i / 4])) + [Joker, Joker, Joker]
  }

  /** The full deck the game is played with: two copies of SingleDeck. */
  function FullDeck(): seq<Card>
  {
    SingleDeck() + SingleDeck()
  }

  /** The deck holds (13 ranks x 4 suits + 3 jokers) x 2 = 110 cards, with
      six jokers and two copies of every suited card. */
  lemma FullDeckShape()
    ensures |FullDeck()| == 110
    ensures multiset(FullDeck())[Joker] == 6
    ensures forall i :: 0 <= i < 52 ==> multiset(FullDeck())[Card(Suits[i % 4], SuitedRanks[i / 4])] == 2
  {
    var d := SingleDeck();
    assert d == d[..52] + [Joker, Joker, Joker];
    assert Joker !in d[..52];
    assert multiset(d)[Joker] == 3;
    forall i | 0 <= i < 52
      ensures multiset(FullDeck())[Card(Suits[i % 4], SuitedRanks[i / 4])] == 2
    {
      var c := Card(Suits[i % 4], SuitedRanks[i / 4]);
      OnceInFirstPart(i);
      assert multiset(d)[c] == multiset(d[..52])[c] + multiset([Joker, Joker, Joker])[c];
    }
  }

  /** Each suited card occurs exactly once among the first 52 cards of a copy. */
  lemma OnceInFirstPart(i: int)
    requires 0 <= i < 52
    ensures multiset(SingleDeck()[..52])[Card(Suits[i % 4], SuitedRanks[i / 4])] == 1
  {
    var d := SingleDeck()[..52];
    var c := Card(Suits[i % 4], SuitedRanks[i / 4]);
    forall k | 0 <= k < 52 && k != i
      ensures d[k] != c
    {
      assert d[k] == Card(Suits[k % 4], SuitedRanks[k / 4]);
      if k % 4 == i % 4 {
        assert k / 4 != i / 4;
      }
    }
    assert d == d[..i] + [c] + d[i + 1..];
    assert c !in d[..i];
    assert c !in d[i + 1..];
  }

  predicate IsDigitChar(c: char)
  {
    '0' <= c <= '9'
  }

  /** Python's `str.isdigit` on ASCII text: non-empty and all decimal digits. */
  predicate IsDigits(s: string)
  {
    |s| > 0 && forall i :: 0 <= i < |s| ==> IsDigitChar(s[i])
  }

  /** Python's `int` on a string of decimal digits. */
  function DecimalValue(s: string): (n: nat)
    requires forall i :: 0 <= i < |s| ==> IsDigitChar(s[i])
  {
    if |s| == 0 then 0
    else
      assert IsDigitChar(s[|s| - 1]);
      10 * DecimalValue(s[..|s| - 1]) + ((s[|s| - 1] as int) - ('0' as int))
  }

  /** The movement values of a card, tested in the order of dog.py:226-240.
      Because the digit test comes before the tests for '4' and '7', those
      ranks yield [4] and [7]; a Jack (and any unknown rank) yields [0]. */
  function CardValues(c: Card): (r: seq<int>)
    ensures |r| >= 1
    ensures (|r| == 14) <==> c.rank == "JKR"
    ensures (|r| == 2) <==> c.rank == "A"
    ensures forall v :: v in r ==> v >= -4
    ensures (-4 in r) <==> c.rank == "JKR"
  {
    if c.rank == "A" then [1, 11]
    else if c.rank == "Q" then [12]
    else if c.rank == "K" then [13]
    else if IsDigits(c.rank) then [DecimalValue(c.rank) as int]
    else if c.rank == "JKR" then [-4, 1, 2, 3, 4, 5, 6, 7, 8, 9, 10, 11, 12, 13]
    else if c.rank == "4" then [-4, 4]
    else if c.rank == "7" then [7]
    else [0]
  }

  /** The values of the ranks that are spelled out in the deck. */
  lemma RankValues(suit: string)
    ensures CardValues(Card(suit, "2")) == [2] && CardValues(Card(suit, "3")) == [3]
    ensures CardValues(Card(suit, "4")) == [4] && CardValues(Card(suit, "5")) == [5]
    ensures CardValues(Card(suit, "6")) == [6] && CardValues(Card(suit, "7")) == [7]
    ensures CardValues(Card(suit, "8")) == [8] && CardValues(Card(suit, "9")) == [9]
    ensures CardValues(Card(suit, "10")) == [10] && CardValues(Card(suit, "J")) == [0]
    ensures CardValues(Card(suit, "Q")) == [12] && CardValues(Card(suit, "K")) == [13]
    ensures CardValues(Card(suit, "A")) == [1, 11]
  {
    LowRankValues(suit);
    HighRankValues(suit);
  }

  /** The values of the ranks two to six. */
  lemma LowRankValues(suit: string)
    ensures CardValues(Card(suit, "2")) == [2] && CardValues(Card(suit, "3")) == [3]
    ensures CardValues(Card(suit, "4")) == [4] && CardValues(Card(suit, "5")) == [5]
    ensures CardValues(Card(suit, "6")) == [6]
  {
  }

  /** The values of the ranks seven to ace. */
  lemma HighRankValues(suit: string)
    ensures CardValues(Card(suit, "7")) == [7]
    ensures CardValues(Card(suit, "8")) == [8] && CardValues(Card(suit, "9")) == [9]
    ensures CardValues(Card(suit, "10")) == [10] && CardValues(Card(suit, "J")) == [0]
    ensures CardValues(Card(suit, "Q")) == [12] && CardValues(Card(suit, "K")) == [13]
    ensures CardValues(Card(suit, "A")) == [1, 11]
  {
    assert IsDigits("10");
    assert !IsDigits("J") by { assert !IsDigitChar("J"[0]); }
  }

  /** The backward four of dog.py:236-237 cannot be played: a '4' only
      moves forward. */
  lemma FourMovesForwardOnly(suit: string)
    ensures -4 !in CardValues(Card(suit, "4"))
  {
  }
}
