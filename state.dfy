/** The data model of the Dog engine (dog.py:9-91): marbles, player states,
    actions and the game state, plus the marble listing `get_all_marbles`
    (dog.py:295-309) and the card accounting used by the consistency checks. */
module DogState {
  import opened Wrappers
  import opened Board
  import opened Cards

  datatype GamePhase = Setup | Running | Finished

  /** A marble: its cell and whether it is protected ("is_save"). */
  datatype Marble = Marble(pos: int, isSave: bool)

  datatype PlayerState = PlayerState(name: string, hand: seq<Card>, marbles: seq<Marble>)

  /** One atomic marble relocation driven by one played card; `cardSwap` is
      never filled in by the move generator. */
  datatype Action = Action(card: Card, posFrom: Option<int>, posTo: Option<int>, cardSwap: Option<Card>)

  datatype GameState = GameState(
    cntPlayer: int,
    phase: GamePhase,
    cntRound: int,
    cardExchanged: bool,
    idxPlayerStarted: int,
    idxPlayerActive: int,
    players: seq<PlayerState>,
    drawPile: seq<Card>,
    discardPile: seq<Card>,
    activeCard: Option<Card>)

  /** What the engine silently relies on: four seats and seat indices that
      are valid keys of its per-player tables. */
  predicate WellFormed(s: GameState)
  {
    && s.cntPlayer == PlayerCount
    && |s.players| == PlayerCount
    && 0 <= s.idxPlayerActive < PlayerCount
    && 0 <= s.idxPlayerStarted < PlayerCount
  }

  /** The ValueErrors the engine raises, one constructor per raise site. */
  datatype DogError =
    | EmptyDiscardPile     // reshuffle with nothing to reshuffle
    | NotEnoughCards       // dealing with too few cards in draw and discard piles
    | CardNotInHand        // playing a card the active player does not hold
    | MarbleNotFound       // moving from a cell no own marble stands on
    | TooManyCards(player: string)  // a hand larger than the round allows
    | CardTotalMismatch    // the card count differs from the deck size

  /** One entry of the marble listing. */
  datatype MarbleInfo = MarbleInfo(player: string, playerIdx: int, position: int, isSave: bool)

  /** The listing entries of one player's marbles, in marble order. */
  function PlayerMarbleInfos(name: string, idx: int, ms: seq<Marble>): (r: seq<MarbleInfo>)
    ensures |r| == |ms|
    ensures forall k :: 0 <= k < |ms| ==> r[k] == MarbleInfo(name, idx, ms[k].pos, ms[k].isSave)
  {
    if ms == [] then []
    else PlayerMarbleInfos(name, idx, ms[..|ms| - 1]) + [MarbleInfo(name, idx, ms[|ms| - 1].pos, ms[|ms| - 1].isSave)]
  }

  /** `get_all_marbles`: every marble of every player, tagged with its owner.
      An entry is exactly a marble of the player it names. */
  function AllMarbles(ps: seq<PlayerState>): (r: seq<MarbleInfo>)
    ensures forall m :: m in r ==>
      && 0 <= m.playerIdx < |ps|
      && m.player == ps[m.playerIdx].name
      && Marble(m.position, m.isSave) in ps[m.playerIdx].marbles
    ensures forall i, j :: 0 <= i < |ps| && 0 <= j < |ps[i].marbles| ==>
      MarbleInfo(ps[i].name, i, ps[i].marbles[j].pos, ps[i].marbles[j].isSave) in r
  {
    if ps == [] then []
    else
      var last := |ps| - 1;
      var front := AllMarbles(ps[..last]);
      var tail := PlayerMarbleInfos(ps[last].name, last, ps[last].marbles);
      AllMarblesStep(ps, ps[..last], front, tail);
      front + tail
  }

  /** The inductive step of AllMarbles, kept apart to keep its proof small. */
  lemma {:induction false} AllMarblesStep(ps: seq<PlayerState>, pre: seq<PlayerState>, front: seq<MarbleInfo>, tail: seq<MarbleInfo>)
    requires |ps| > 0 && pre == ps[..|ps| - 1]
    requires forall m :: m in front ==>
      && 0 <= m.playerIdx < |pre|
      && m.player == pre[m.playerIdx].name
      && Marble(m.position, m.isSave) in pre[m.playerIdx].marbles
    requires forall i, j :: 0 <= i < |pre| && 0 <= j < |pre[i].marbles| ==>
      MarbleInfo(pre[i].name, i, pre[i].marbles[j].pos, pre[i].marbles[j].isSave) in front
    requires tail == PlayerMarbleInfos(ps[|ps| - 1].name, |ps| - 1, ps[|ps| - 1].marbles)
    ensures forall m :: m in front + tail ==>
      && 0 <= m.playerIdx < |ps|
      && m.player == ps[m.playerIdx].name
      && Marble(m.position, m.isSave) in ps[m.playerIdx].marbles
    ensures forall i, j :: 0 <= i < |ps| && 0 <= j < |ps[i].marbles| ==>
      MarbleInfo(ps[i].name, i, ps[i].marbles[j].pos, ps[i].marbles[j].isSave) in front + tail
  {
    var last := |ps| - 1;
    forall m | m in front + tail
      ensures 0 <= m.playerIdx < |ps| && m.player == ps[m.playerIdx].name
      ensures Marble(m.position, m.isSave) in ps[m.playerIdx].marbles
    {
      if m in front {
        assert ps[..last][m.playerIdx] == ps[m.playerIdx];
      } else {
        var k :| 0 <= k < |tail| && tail[k] == m;
        assert ps[last].marbles[k] == Marble(m.position, m.isSave);
      }
    }
    forall i, j | 0 <= i < |ps| && 0 <= j < |ps[i].marbles|
      ensures MarbleInfo(ps[i].name, i, ps[i].marbles[j].pos, ps[i].marbles[j].isSave) in front + tail
    {
      if i < last {
        assert ps[..last][i] == ps[i];
        assert MarbleInfo(ps[i].name, i, ps[i].marbles[j].pos, ps[i].marbles[j].isSave) in front;
      } else {
        assert tail[j] == MarbleInfo(ps[i].name, i, ps[i].marbles[j].pos, ps[i].marbles[j].isSave);
      }
    }
  }

  /** The cells occupied by some marble, as `_calculate_new_position` collects
      them from the marble listing (dog.py:250). */
  function Blocked(ps: seq<PlayerState>): set<int>
  {
    set m | m in AllMarbles(ps) :: m.position
  }

  /** No marble of any player stands on `q` (the test at dog.py:542). */
  predicate PositionFree(ps: seq<PlayerState>, q: int)
  {
    forall i, j :: 0 <= i < |ps| && 0 <= j < |ps[i].marbles| ==> ps[i].marbles[j].pos != q
  }

  /** The blocked set holds exactly the cells some marble stands on. */
  lemma {:induction false} BlockedIsOccupied(ps: seq<PlayerState>, q: int)
    ensures q in Blocked(ps) <==> !PositionFree(ps, q)
  {
    if q in Blocked(ps) {
      var m :| m in AllMarbles(ps) && m.position == q;
      var ms := ps[m.playerIdx].marbles;
      var j :| 0 <= j < |ms| && ms[j] == Marble(m.position, m.isSave);
      assert ps[m.playerIdx].marbles[j].pos == q;
    }
    if !PositionFree(ps, q) {
      var i, j :| 0 <= i < |ps| && 0 <= j < |ps[i].marbles| && ps[i].marbles[j].pos == q;
      assert MarbleInfo(ps[i].name, i, ps[i].marbles[j].pos, ps[i].marbles[j].isSave) in AllMarbles(ps);
    }
  }

  /** Total number of cards held in hands. */
  function HandsSize(ps: seq<PlayerState>): nat
  {
    if ps == [] then 0 else HandsSize(ps[..|ps| - 1]) + |ps[|ps| - 1].hand|
  }

  /** All cards held in hands, as a multiset. */
  function HandsMultiset(ps: seq<PlayerState>): (m: multiset<Card>)
    ensures |m| == HandsSize(ps)
  {
    if ps == [] then multiset{} else HandsMultiset(ps[..|ps| - 1]) + multiset(ps[|ps| - 1].hand)
  }

  /** Every card of the game, wherever it lies. */
  function AllCards(s: GameState): (m: multiset<Card>)
    ensures |m| == |s.drawPile| + |s.discardPile| + HandsSize(s.players)
  {
    multiset(s.drawPile) + multiset(s.discardPile) + HandsMultiset(s.players)
  }

  /** The card count compared against the deck size by the consistency checks. */
  function CardCount(s: GameState): nat
  {
    |s.drawPile| + |s.discardPile| + HandsSize(s.players)
  }

  /** Union of multisets may be regrouped: adding v to both sides of x + y == z + w. */
  lemma MultisetRegroup<T>(x: multiset<T>, y: multiset<T>, z: multiset<T>, w: multiset<T>, v: multiset<T>)
    requires x + y == z + w
    ensures (x + v) + y == (z + v) + w
  {
    forall e ensures ((x + v) + y)[e] == ((z + v) + w)[e] {
      assert (x + y)[e] == (z + w)[e];
    }
  }

  /** Replacing one player's hand changes the hands by exactly that hand. */
  lemma {:induction false} HandsAfterUpdate(ps: seq<PlayerState>, i: int, hand: seq<Card>)
    requires 0 <= i < |ps|
    ensures HandsMultiset(ps[i := ps[i].(hand := hand)]) + multiset(ps[i].hand) == HandsMultiset(ps) + multiset(hand)
    ensures HandsSize(ps[i := ps[i].(hand := hand)]) + |ps[i].hand| == HandsSize(ps) + |hand|
    decreases |ps|, 1
  {
    var ps' := ps[i := ps[i].(hand := hand)];
    if i < |ps| - 1 {
      HandsUpdateEarlier(ps, i, hand);
    } else {
      HandsUpdateLast(ps, hand);
    }
    assert |HandsMultiset(ps') + multiset(ps[i].hand)| == |HandsMultiset(ps) + multiset(hand)|;
  }

  /** HandsAfterUpdate for a seat before the last one. */
  lemma {:induction false} HandsUpdateEarlier(ps: seq<PlayerState>, i: int, hand: seq<Card>)
    requires 0 <= i < |ps| - 1
    ensures HandsMultiset(ps[i := ps[i].(hand := hand)]) + multiset(ps[i].hand) == HandsMultiset(ps) + multiset(hand)
    decreases |ps|, 0
  {
    var ps' := ps[i := ps[i].(hand := hand)];
    var n := |ps| - 1;
    var pre, pre' := ps[..n], ps'[..n];
    assert HandsMultiset(ps) == HandsMultiset(pre) + multiset(ps[n].hand);
    assert HandsMultiset(ps') == HandsMultiset(pre') + multiset(ps'[n].hand);
    assert pre' == pre[i := ps[i].(hand := hand)];
    HandsAfterUpdate(pre, i, hand);
    assert ps'[n] == ps[n];
    MultisetRegroup(HandsMultiset(pre'), multiset(ps[i].hand), HandsMultiset(pre), multiset(hand), multiset(ps[n].hand));
  }

  /** HandsAfterUpdate for the last seat. */
  lemma HandsUpdateLast(ps: seq<PlayerState>, hand: seq<Card>)
    requires |ps| > 0
    ensures var i := |ps| - 1;
      HandsMultiset(ps[i := ps[i].(hand := hand)]) + multiset(ps[i].hand) == HandsMultiset(ps) + multiset(hand)
  {
    var n := |ps| - 1;
    var ps' := ps[n := ps[n].(hand := hand)];
    assert ps'[..n] == ps[..n];
    var h := HandsMultiset(ps[..n]);
    assert HandsMultiset(ps) == h + multiset(ps[n].hand);
    assert HandsMultiset(ps') == h + multiset(hand);
    forall e ensures (HandsMultiset(ps') + multiset(ps[n].hand))[e] == (HandsMultiset(ps) + multiset(hand))[e] {
    }
  }

  /** Hands that are all empty hold no cards. */
  lemma {:induction false} EmptyHandsHoldNothing(ps: seq<PlayerState>)
    requires forall i :: 0 <= i < |ps| ==> ps[i].hand == []
    ensures HandsSize(ps) == 0 && HandsMultiset(ps) == multiset{}
  {
    if ps != [] {
      EmptyHandsHoldNothing(ps[..|ps| - 1]);
    }
  }

  /** Changing marbles only leaves the hands alone. */
  lemma {:induction false} HandsIgnoreMarbles(ps: seq<PlayerState>, ps': seq<PlayerState>)
    requires |ps| == |ps'|
    requires forall i :: 0 <= i < |ps| ==> ps[i].hand == ps'[i].hand
    ensures HandsSize(ps) == HandsSize(ps') && HandsMultiset(ps) == HandsMultiset(ps')
  {
    if ps != [] {
      HandsIgnoreMarbles(ps[..|ps| - 1], ps'[..|ps| - 1]);
    }
  }
}
