/** The round lifecycle of the Dog engine (dog.py:281-293, 550-653): cards
    per round, the anti-clockwise starting player, dealing from the draw
    pile and the consistency checks. The shuffles are left to the methods
    of the engine class; everything here is deterministic. */
module Deck {
  import opened Wrappers
  import opened Board
  import opened Cards
  import opened DogState

  /** `get_cards_per_round`: six cards in round one, then one fewer each
      round down to two, and again (dog.py:550-553). */
  function CardsPerRound(round: int): (n: int)
    ensures 2 <= n <= 6
  {
    6 - ((round - 1) % 5)
  }

  /** The cycle of hand sizes: 6 in round one, period five, and each round
      one card fewer except that two is followed by six. */
  lemma CardsPerRoundCycle(round: int)
    ensures CardsPerRound(1) == 6
    ensures CardsPerRound(round + 5) == CardsPerRound(round)
    ensures CardsPerRound(round + 1) == if CardsPerRound(round) == 2 then 6 else CardsPerRound(round) - 1
  {
    var m := (round - 1) % 5;
    assert round - 1 == 5 * ((round - 1) / 5) + m;
    assert round + 4 == 5 * ((round - 1) / 5 + 1) + m;
    if m == 4 {
      assert round == 5 * ((round - 1) / 5 + 1) + 0;
    } else {
      assert round == 5 * ((round - 1) / 5) + (m + 1);
    }
  }

  /** `update_starting_player`: the previous seat, anti-clockwise, with
      Python's non-negative remainder (dog.py:555-559). */
  function PreviousSeat(idx: int, count: int): (r: int)
    requires count > 0
    ensures 0 <= r < count
    ensures 0 < idx <= count ==> r == idx - 1
    ensures idx == 0 ==> r == count - 1
  {
    (idx - 1) % count
  }

  /** Four anti-clockwise steps come back to the same seat. */
  lemma PreviousSeatCycle(idx: int)
    requires 0 <= idx < PlayerCount
    ensures PreviousSeat(PreviousSeat(PreviousSeat(PreviousSeat(idx, 4), 4), 4), 4) == idx
  {
  }

  /** The hands emptied for a new round (dog.py:646-647). */
  function ClearHands(ps: seq<PlayerState>): (r: seq<PlayerState>)
    ensures |r| == |ps|
    ensures forall q :: 0 <= q < |ps| ==> r[q] == ps[q].(hand := [])
  {
    seq(|ps|, q requires 0 <= q < |ps| => ps[q].(hand := []))
  }

  /** Giving the top (last) card of the draw pile to player q (dog.py:610-611). */
  function DealOne(s: GameState, q: int): (r: GameState)
    requires 0 <= q < |s.players| && s.drawPile != []
  {
    s.(drawPile := s.drawPile[..|s.drawPile| - 1],
       players := s.players[q := s.players[q].(hand := s.players[q].hand + [s.drawPile[|s.drawPile| - 1]])])
  }

  /** The first k single deals of the dealing loops (dog.py:601-611): the
      t-th card dealt goes to player t mod 4. */
  function DealSteps(s: GameState, k: nat): (r: GameState)
    requires |s.players| == PlayerCount && k <= |s.drawPile|
    ensures |r.players| == PlayerCount && |r.drawPile| == |s.drawPile| - k
  {
    if k == 0 then s else DealOne(DealSteps(s, k - 1), (k - 1) % PlayerCount)
  }

  /** One deal moves one card from the draw pile to a hand. */
  lemma DealOneConserves(t: GameState, q: int)
    requires 0 <= q < |t.players| && t.drawPile != []
    ensures multiset(DealOne(t, q).drawPile) + HandsMultiset(DealOne(t, q).players) == multiset(t.drawPile) + HandsMultiset(t.players)
  {
    var r := DealOne(t, q);
    var top := t.drawPile[|t.drawPile| - 1];
    HandsAfterUpdate(t.players, q, t.players[q].hand + [top]);
    assert t.drawPile == r.drawPile + [top];
    assert multiset(t.drawPile) == multiset(r.drawPile) + multiset{top};
    assert multiset(r.players[q].hand) == multiset(t.players[q].hand) + multiset{top};
    forall e ensures (multiset(r.drawPile) + HandsMultiset(r.players))[e] == (multiset(t.drawPile) + HandsMultiset(t.players))[e] {
      assert (HandsMultiset(r.players) + multiset(t.players[q].hand))[e] == (HandsMultiset(t.players) + multiset(r.players[q].hand))[e];
    }
  }

  /** Dealing moves cards from the draw pile to hands only: the cards of
      draw pile and hands stay the same multiset. */
  lemma {:induction false} DealConserves(s: GameState, k: nat)
    requires |s.players| == PlayerCount && k <= |s.drawPile|
    ensures multiset(DealSteps(s, k).drawPile) + HandsMultiset(DealSteps(s, k).players) == multiset(s.drawPile) + HandsMultiset(s.players)
  {
    if k > 0 {
      var t := DealSteps(s, k - 1);
      var u := DealSteps(s, k);
      DealConserves(s, k - 1);
      assert multiset(u.drawPile) + HandsMultiset(u.players) == multiset(t.drawPile) + HandsMultiset(t.players) by {
        assert u == DealOne(t, (k - 1) % PlayerCount);
        DealOneConserves(t, (k - 1) % PlayerCount);
      }
    }
  }

  /** ... and nothing but draw pile and hands changes. */
  lemma {:induction false} DealKeepsRest(s: GameState, k: nat)
    requires |s.players| == PlayerCount && k <= |s.drawPile|
    ensures DealSteps(s, k) == s.(drawPile := DealSteps(s, k).drawPile, players := DealSteps(s, k).players)
    ensures forall q :: 0 <= q < PlayerCount ==>
      DealSteps(s, k).players[q] == s.players[q].(hand := DealSteps(s, k).players[q].hand)
  {
    if k > 0 {
      var t := DealSteps(s, k - 1);
      DealKeepsRest(s, k - 1);
      assert DealSteps(s, k) == DealOne(t, (k - 1) % PlayerCount);
    }
  }

  /** The cards player q receives in n rounds of dealing from `pile`: the
      pile is dealt from its end, one card to each seat in turn. */
  function DealtTo(pile: seq<Card>, n: nat, q: int): (r: seq<Card>)
    requires 0 <= q < PlayerCount && 4 * n <= |pile|
    ensures |r| == n
  {
    seq(n, t requires 0 <= t < n => pile[|pile| - 1 - (4 * t + q)])
  }

  /** n full rounds of dealing: each seat's hand grows by exactly n cards,
      in dealing order, and the draw pile loses its last 4n cards. */
  lemma {:induction false} DealRounds(s: GameState, n: nat)
    requires |s.players| == PlayerCount && 4 * n <= |s.drawPile|
    ensures var r := DealSteps(s, 4 * n);
      && r.drawPile == s.drawPile[..|s.drawPile| - 4 * n]
      && forall q :: 0 <= q < PlayerCount ==> r.players[q].hand == s.players[q].hand + DealtTo(s.drawPile, n, q)
  {
    DealPile(s, 4 * n);
    forall q | 0 <= q < PlayerCount
      ensures DealSteps(s, 4 * n).players[q].hand == s.players[q].hand + DealtTo(s.drawPile, n, q)
    {
      DealHand(s, n, q);
    }
  }

  /** The draw pile loses one card from its end per deal. */
  lemma {:induction false} DealPile(s: GameState, k: nat)
    requires |s.players| == PlayerCount && k <= |s.drawPile|
    ensures DealSteps(s, k).drawPile == s.drawPile[..|s.drawPile| - k]
  {
    if k > 0 {
      DealPile(s, k - 1);
    }
  }

  lemma {:induction false} DealHand(s: GameState, n: nat, q: int)
    requires |s.players| == PlayerCount && 4 * n <= |s.drawPile| && 0 <= q < PlayerCount
    ensures DealSteps(s, 4 * n).players[q].hand == s.players[q].hand + DealtTo(s.drawPile, n, q)
  {
    if n > 0 {
      var d := s.drawPile;
      var k := 4 * (n - 1);
      assert k + 4 == 4 * n;
      DealHand(s, n - 1, q);
      RoundHand(s, k, q);
      HandGrows(s.players[q].hand, DealSteps(s, k).players[q].hand, DealSteps(s, k + 4).players[q].hand, d, n, q);
    } else {
      assert DealtTo(s.drawPile, 0, q) == [];
    }
  }

  /** The round after k deals gives seat q the card k + q places below the
      top of the original pile. */
  lemma RoundHand(s: GameState, k: nat, q: int)
    requires |s.players| == PlayerCount && k + 4 <= |s.drawPile| && k % 4 == 0 && 0 <= q < PlayerCount
    ensures var d := s.drawPile;
      DealSteps(s, k + 4).players[q].hand == DealSteps(s, k).players[q].hand + [d[|d| - 1 - (k + q)]]
  {
    var t := DealSteps(s, k);
    RoundStep(s, k);
    DealPile(s, k);
    NextCardOfSeat(s.drawPile, t.drawPile, k, q);
  }

  /** The card q places below the top of the pile left after k deals. */
  lemma NextCardOfSeat(d: seq<Card>, rest: seq<Card>, k: nat, q: int)
    requires 0 <= q < PlayerCount && k + 4 <= |d| && rest == d[..|d| - k]
    ensures rest[|rest| - 1 - q] == d[|d| - 1 - (k + q)]
  {
  }

  /** The hand after one more round is the hand dealt so far plus the next
      card of the seat. */
  lemma HandGrows(h0: seq<Card>, h: seq<Card>, h': seq<Card>, d: seq<Card>, n: nat, q: int)
    requires 0 <= q < PlayerCount && 0 < n && 4 * n <= |d|
    requires h == h0 + DealtTo(d, n - 1, q) && h' == h + [d[|d| - 1 - (4 * (n - 1) + q)]]
    ensures h' == h0 + DealtTo(d, n, q)
  {
    DealtToSnoc(d, n - 1, q);
  }

  lemma DealtToSnoc(pile: seq<Card>, n: nat, q: int)
    requires 0 <= q < PlayerCount && 4 * (n + 1) <= |pile|
    ensures DealtTo(pile, n + 1, q) == DealtTo(pile, n, q) + [pile[|pile| - 1 - (4 * n + q)]]
  {
  }

  /** One round of dealing, seat by seat. */
  function Round(t: GameState): GameState
    requires |t.players| == PlayerCount && 4 <= |t.drawPile|
  {
    DealOne(DealOne(DealOne(DealOne(t, 0), 1), 2), 3)
  }

  /** Dealing 4(n+1) cards is dealing 4n and then one round. */
  lemma UnfoldRound(s: GameState, k: nat)
    requires |s.players| == PlayerCount && k + 4 <= |s.drawPile| && k % 4 == 0
    ensures DealSteps(s, k + 4) == Round(DealSteps(s, k))
  {
    assert k % 4 == 0 && (k + 1) % 4 == 1 && (k + 2) % 4 == 2 && (k + 3) % 4 == 3;
    var t := DealSteps(s, k);
    assert DealSteps(s, k + 1) == DealOne(t, 0);
    assert DealSteps(s, k + 2) == DealOne(DealOne(t, 0), 1);
    assert DealSteps(s, k + 3) == DealOne(DealOne(DealOne(t, 0), 1), 2);
  }

  /** The four deals after k: seat q gets the card q places below the top. */
  lemma RoundStep(s: GameState, k: nat)
    requires |s.players| == PlayerCount && k + 4 <= |s.drawPile| && k % 4 == 0
    ensures forall q :: 0 <= q < PlayerCount ==>
      DealSteps(s, k + 4).players[q].hand == DealSteps(s, k).players[q].hand + [DealSteps(s, k).drawPile[|DealSteps(s, k).drawPile| - 1 - q]]
  {
    UnfoldRound(s, k);
    OneRound(DealSteps(s, k));
  }

  /** A round gives seat q the card q places below the top. */
  lemma OneRound(t: GameState)
    requires |t.players| == PlayerCount && 4 <= |t.drawPile|
    ensures Round(t).drawPile == t.drawPile[..|t.drawPile| - 4]
    ensures forall q :: 0 <= q < PlayerCount ==>
      Round(t).players[q].hand == t.players[q].hand + [t.drawPile[|t.drawPile| - 1 - q]]
  {
  }

  /** Every seat holds exactly `n` cards more after n rounds. */
  lemma DealRoundsSizes(s: GameState, n: nat)
    requires |s.players| == PlayerCount && 4 * n <= |s.drawPile|
    ensures forall q :: 0 <= q < PlayerCount ==> |DealSteps(s, 4 * n).players[q].hand| == |s.players[q].hand| + n
  {
    DealRounds(s, n);
  }

  /** `validate_total_cards` (dog.py:281-293): the cards of draw pile,
      discard pile and hands must number as many as the full deck. */
  function TotalCardsCheck(s: GameState): (r: Outcome<DogError>)
    ensures r == Pass <==> CardCount(s) == |FullDeck()|
    ensures r.Fail? ==> r.error == CardTotalMismatch
  {
    assert |FullDeck()| == 110;
    if CardCount(s) != |FullDeck()| then Fail(CardTotalMismatch) else Pass
  }

  /** The first seat, from seat i on, whose hand is larger than `limit`. */
  function FirstOverfull(ps: seq<PlayerState>, limit: int, i: nat): (r: Option<int>)
    requires i <= |ps|
    ensures r.Some? ==> i <= r.value < |ps| && |ps[r.value].hand| > limit
    ensures r.Some? ==> forall q :: i <= q < r.value ==> |ps[q].hand| <= limit
    ensures r.None? ==> forall q :: i <= q < |ps| ==> |ps[q].hand| <= limit
    decreases |ps| - i
  {
    if i == |ps| then None
    else if |ps[i].hand| > limit then Some(i)
    else FirstOverfull(ps, limit, i + 1)
  }

  /** `validate_game_state` (dog.py:616-632): first every hand against the
      round's hand size, naming the first offender, then the card total. */
  function GameStateCheck(s: GameState): (r: Outcome<DogError>)
    ensures r == Pass <==>
      (forall q :: 0 <= q < |s.players| ==> |s.players[q].hand| <= CardsPerRound(s.cntRound)) && CardCount(s) == 110
    ensures r.Fail? && r.error.TooManyCards? ==>
      exists q :: 0 <= q < |s.players| && |s.players[q].hand| > CardsPerRound(s.cntRound) && r.error.player == s.players[q].name
    ensures r.Fail? && !r.error.TooManyCards? ==> r.error == CardTotalMismatch && CardCount(s) != 110
  {
    assert |FullDeck()| == 110;
    match FirstOverfull(s.players, CardsPerRound(s.cntRound), 0)
    case Some(q) => Fail(TooManyCards(s.players[q].name))
    case None => TotalCardsCheck(s)
  }

  /** With all hands empty and the full deck on the draw pile, dealing a
      round's cards yields a state both checks accept. */
  lemma DealtStateIsValid(s: GameState)
    requires |s.players| == PlayerCount
    requires forall q :: 0 <= q < PlayerCount ==> s.players[q].hand == []
    requires CardCount(s) == 110 && 4 * CardsPerRound(s.cntRound) <= |s.drawPile|
    ensures var r := DealSteps(s, 4 * CardsPerRound(s.cntRound));
      GameStateCheck(r) == Pass && TotalCardsCheck(r) == Pass
  {
    var n := CardsPerRound(s.cntRound);
    var r := DealSteps(s, 4 * n);
    DealRoundsSizes(s, n);
    DealConserves(s, 4 * n);
    DealKeepsRest(s, 4 * n);
    assert |multiset(r.drawPile) + HandsMultiset(r.players)| == |multiset(s.drawPile) + HandsMultiset(s.players)|;
    assert CardCount(r) == CardCount(s);
    assert |FullDeck()| == 110;
  }
}
