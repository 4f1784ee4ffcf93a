/** The `Dog` engine class (dog.py:93-679): the game state it owns and the
    methods that update it in place — setting up a game, dealing, starting a
    round, applying an action — together with the move generator and the
    masked player view, each proved against the functions of the modules it
    imports. */
module DogGame {
  import opened Wrappers
  import opened Seqs
  import opened Board
  import opened Cards
  import opened DogState
  import opened Movement
  import opened SevenSplit
  import opened LegalMoves
  import opened Turn
  import opened Deck

  // ---------------------------------------------------------------------
  // Set-up

  /** `random.shuffle`: the order is left open, only that the result is a
      permutation of the input is promised. */
  method Shuffle(cards: seq<Card>) returns (r: seq<Card>)
    ensures multiset(r) == multiset(cards)
  {
    r := cards;
  }

  /** "Player 1" to "Player 4". */
  function PlayerName(i: PlayerIndex): string
  {
    "Player " + [('1' as int + i) as char]
  }

  /** The players of a new game (dog.py:120-129): no cards, and the four
      marbles of each on that player's kennel slots, protected. */
  function InitialPlayers(): (ps: seq<PlayerState>)
    ensures |ps| == PlayerCount
  {
    seq(PlayerCount, i requires 0 <= i < PlayerCount =>
      PlayerState(PlayerName(i), [], seq(4, j requires 0 <= j < 4 => Marble(Kennel(i)[j], true))))
  }

  /** The state `initialize_game` builds before dealing (dog.py:135-153),
      for the shuffled deck and the drawn starting player. */
  function InitialState(deck: seq<Card>, started: PlayerIndex): (s: GameState)
    ensures WellFormed(s)
  {
    GameState(PlayerCount, Running, 1, false, started, started, InitialPlayers(), deck, [], None)
  }

  /** A new game: all hands empty, every marble protected on its own kennel
      slot, no two marbles on one cell, and exactly the deck's cards. */
  lemma InitialStateFacts(deck: seq<Card>, started: PlayerIndex)
    ensures var s := InitialState(deck, started);
      && (forall q :: 0 <= q < PlayerCount ==> s.players[q].hand == [])
      && (forall i, j :: 0 <= i < PlayerCount && 0 <= j < |s.players[i].marbles| ==>
            s.players[i].marbles[j].pos in Kennel(i) && s.players[i].marbles[j].isSave)
      && (forall i, j, i', j' ::
            (0 <= i < PlayerCount && 0 <= j < |s.players[i].marbles| &&
             0 <= i' < PlayerCount && 0 <= j' < |s.players[i'].marbles| && (i, j) != (i', j')) ==>
            s.players[i].marbles[j].pos != s.players[i'].marbles[j'].pos)
      && AllCards(s) == multiset(deck)
  {
    var s := InitialState(deck, started);
    forall i, j | 0 <= i < PlayerCount && 0 <= j < |s.players[i].marbles|
      ensures s.players[i].marbles[j].pos == 64 + 8 * i + j
    {
      Layout(i);
    }
    EmptyHandsHoldNothing(s.players);
  }

  // ---------------------------------------------------------------------
  // The specification of dealing and of a new round

  /** The piles after the reshuffle loop of `deal_cards` (dog.py:592-596),
      before any shuffling: when the draw pile is short and the discard pile
      is not empty, the discard pile is appended to the draw pile. */
  function Restocked(s: GameState): (r: GameState)
    ensures multiset(r.drawPile) + multiset(r.discardPile) == multiset(s.drawPile) + multiset(s.discardPile)
    ensures r == s.(drawPile := r.drawPile, discardPile := r.discardPile)
  {
    if |s.drawPile| < 4 * CardsPerRound(s.cntRound) && s.discardPile != [] then
      s.(drawPile := s.drawPile + s.discardPile, discardPile := [])
    else s
  }

  /** What `deal_cards` (dog.py:584-611) leaves behind from s0 when the
      restocked draw pile ends up shuffled into the order d: either 4n
      cards are dealt one by one, or there are too few and it raises — with
      the state left as it was when the discard pile was empty. */
  predicate DealtWith(s0: GameState, d: seq<Card>, s: GameState, o: Outcome<DogError>)
    requires WellFormed(s0)
  {
    var n := CardsPerRound(s0.cntRound);
    var r := Restocked(s0);
    && multiset(d) == multiset(r.drawPile) && |d| == |r.drawPile|
    && if |d| >= 4 * n then o == Pass && s == DealSteps(r.(drawPile := d), 4 * n)
       else o == Fail(NotEnoughCards) && s == (if s0.discardPile == [] then s0 else r.(drawPile := d))
  }

  /** `deal_cards` for some order the shuffles leave the draw pile in. */
  ghost predicate DealOutcome(s0: GameState, s: GameState, o: Outcome<DogError>)
    requires WellFormed(s0)
  {
    exists d :: DealtWith(s0, d, s, o)
  }

  /** Dealing succeeds exactly when draw and discard pile together hold 4n
      cards, raises NotEnoughCards otherwise, never loses or creates a
      card, and on success gives every seat exactly n more cards while the
      round, seats and marbles stay as they were. */
  lemma DealCardsEffect(s0: GameState, s: GameState, o: Outcome<DogError>)
    requires WellFormed(s0) && DealOutcome(s0, s, o)
    ensures WellFormed(s)
    ensures o == Pass <==> |s0.drawPile| + |s0.discardPile| >= 4 * CardsPerRound(s0.cntRound)
    ensures o != Pass ==> o == Fail(NotEnoughCards)
    ensures AllCards(s) == AllCards(s0) && CardCount(s) == CardCount(s0)
    ensures s == s0.(drawPile := s.drawPile, discardPile := s.discardPile, players := s.players)
    ensures forall q :: 0 <= q < PlayerCount ==> s.players[q].name == s0.players[q].name && s.players[q].marbles == s0.players[q].marbles
    ensures o == Pass ==> forall q :: 0 <= q < PlayerCount ==>
      |s.players[q].hand| == |s0.players[q].hand| + CardsPerRound(s0.cntRound)
  {
    var d :| DealtWith(s0, d, s, o);
    var n := CardsPerRound(s0.cntRound);
    if |d| >= 4 * n {
      DealtEffect(s0, d, s, n);
    } else {
      ShortEffect(s0, d, s);
    }
  }

  /** The successful branch of DealCardsEffect. */
  lemma DealtEffect(s0: GameState, d: seq<Card>, s: GameState, n: nat)
    requires WellFormed(s0) && n == CardsPerRound(s0.cntRound)
    requires multiset(d) == multiset(Restocked(s0).drawPile) && |d| == |Restocked(s0).drawPile| && |d| >= 4 * n
    requires s == DealSteps(Restocked(s0).(drawPile := d), 4 * n)
    ensures WellFormed(s)
    ensures |s0.drawPile| + |s0.discardPile| >= 4 * n
    ensures AllCards(s) == AllCards(s0) && CardCount(s) == CardCount(s0)
    ensures s == s0.(drawPile := s.drawPile, discardPile := s.discardPile, players := s.players)
    ensures forall q :: 0 <= q < PlayerCount ==> s.players[q].name == s0.players[q].name && s.players[q].marbles == s0.players[q].marbles
    ensures forall q :: 0 <= q < PlayerCount ==> |s.players[q].hand| == |s0.players[q].hand| + n
  {
    var t := Restocked(s0).(drawPile := d);
    RestockedCount(s0);
    DealKeepsRest(t, 4 * n);
    DealRoundsSizes(t, n);
    DealtConserves(s0, t, s, n);
  }

  /** Restocking moves cards from one pile to the other only. */
  lemma RestockedCount(s0: GameState)
    ensures |Restocked(s0).drawPile| + |Restocked(s0).discardPile| == |s0.drawPile| + |s0.discardPile|
  {
    assert |multiset(Restocked(s0).drawPile) + multiset(Restocked(s0).discardPile)| == |multiset(s0.drawPile) + multiset(s0.discardPile)|;
  }

  /** Dealing from a restocked, reordered pile keeps every card. */
  lemma DealtConserves(s0: GameState, t: GameState, s: GameState, n: nat)
    requires |t.players| == PlayerCount && 4 * n <= |t.drawPile|
    requires multiset(t.drawPile) == multiset(Restocked(s0).drawPile)
    requires t == Restocked(s0).(drawPile := t.drawPile)
    requires s == DealSteps(t, 4 * n)
    ensures AllCards(s) == AllCards(s0) && CardCount(s) == CardCount(s0)
  {
    var r := Restocked(s0);
    DealConserves(t, 4 * n);
    DealKeepsRest(t, 4 * n);
    var hs, ht, h0 := HandsMultiset(s.players), HandsMultiset(t.players), HandsMultiset(s0.players);
    assert ht == h0;
    assert s.discardPile == r.discardPile;
    forall e ensures AllCards(s)[e] == AllCards(s0)[e] {
      calc {
        AllCards(s)[e];
        multiset(s.drawPile)[e] + multiset(s.discardPile)[e] + hs[e];
        (multiset(s.drawPile) + hs)[e] + multiset(r.discardPile)[e];
        (multiset(t.drawPile) + ht)[e] + multiset(r.discardPile)[e];
        (multiset(r.drawPile) + multiset(r.discardPile))[e] + h0[e];
        (multiset(s0.drawPile) + multiset(s0.discardPile))[e] + h0[e];
        AllCards(s0)[e];
      }
    }
    assert AllCards(s) == AllCards(s0);
    assert |AllCards(s)| == |AllCards(s0)|;
  }

  /** The raising branch of DealCardsEffect. */
  lemma ShortEffect(s0: GameState, d: seq<Card>, s: GameState)
    requires WellFormed(s0)
    requires multiset(d) == multiset(Restocked(s0).drawPile) && |d| == |Restocked(s0).drawPile| && |d| < 4 * CardsPerRound(s0.cntRound)
    requires s == (if s0.discardPile == [] then s0 else Restocked(s0).(drawPile := d))
    ensures WellFormed(s)
    ensures |s0.drawPile| + |s0.discardPile| < 4 * CardsPerRound(s0.cntRound)
    ensures AllCards(s) == AllCards(s0) && CardCount(s) == CardCount(s0)
    ensures s == s0.(drawPile := s.drawPile, discardPile := s.discardPile, players := s.players)
  {
    assert |multiset(Restocked(s0).drawPile) + multiset(Restocked(s0).discardPile)| == |multiset(s0.drawPile) + multiset(s0.discardPile)|;
  }

  /** At least as many cards as the round needs are dealt from the draw
      pile and hands start empty: the consistency check then passes. */
  lemma DealFromEmptyHandsIsValid(s0: GameState, s: GameState, o: Outcome<DogError>)
    requires WellFormed(s0) && DealOutcome(s0, s, o) && o == Pass
    requires forall q :: 0 <= q < PlayerCount ==> s0.players[q].hand == []
    requires CardCount(s0) == |FullDeck()|
    ensures GameStateCheck(s) == Pass && TotalCardsCheck(s) == Pass
  {
    var d :| DealtWith(s0, d, s, o);
    var t := Restocked(s0).(drawPile := d);
    assert |multiset(Restocked(s0).drawPile) + multiset(Restocked(s0).discardPile)| == |multiset(s0.drawPile) + multiset(s0.discardPile)|;
    assert CardCount(t) == CardCount(s0);
    assert |FullDeck()| == 110;
    DealtStateIsValid(t);
  }

  /** The state `next_round` deals from (dog.py:640-647): the next round,
      the previous seat starts, and every hand is emptied. */
  function RoundStart(s: GameState): (r: GameState)
    requires WellFormed(s)
    ensures WellFormed(r)
  {
    s.(cntRound := s.cntRound + 1,
       idxPlayerStarted := PreviousSeat(s.idxPlayerStarted, s.cntPlayer),
       players := ClearHands(s.players))
  }

  /** Every hand is empty: the round is over (dog.py:481). */
  predicate AllHandsEmpty(ps: seq<PlayerState>)
  {
    forall q :: 0 <= q < |ps| ==> ps[q].hand == []
  }

  /** Emptying the hands throws their cards away, so a new round keeps the
      cards of the game exactly when all hands were already empty. */
  lemma RoundStartCards(s: GameState)
    requires WellFormed(s)
    ensures AllCards(RoundStart(s)) + HandsMultiset(s.players) == AllCards(s)
    ensures AllHandsEmpty(RoundStart(s).players)
    ensures AllHandsEmpty(s.players) ==> AllCards(RoundStart(s)) == AllCards(s)
  {
    var r := RoundStart(s);
    EmptyHandsHoldNothing(r.players);
    if AllHandsEmpty(s.players) {
      EmptyHandsHoldNothing(s.players);
    }
  }

  /** A round begun from a complete game whose hands are all empty deals
      a state the consistency checks accept, or raises NotEnoughCards. */
  lemma NextRoundIsValid(s: GameState, s': GameState, o: Outcome<DogError>)
    requires WellFormed(s) && AllHandsEmpty(s.players) && CardCount(s) == |FullDeck()|
    requires DealOutcome(RoundStart(s), s', o)
    ensures o == Pass ==> GameStateCheck(s') == Pass
    ensures o != Pass ==> o == Fail(NotEnoughCards)
  {
    RoundStartCards(s);
    DealCardsEffect(RoundStart(s), s', o);
    assert |AllCards(RoundStart(s))| == |AllCards(s)|;
    if o == Pass {
      DealFromEmptyHandsIsValid(RoundStart(s), s', o);
    }
  }

  /** The masking of `get_player_view` (dog.py:660-665): the named player
      keeps its state, every other player shows its name and marbles but no
      cards. */
  function MaskPlayers(ps: seq<PlayerState>, idx: int): (r: seq<PlayerState>)
    ensures |r| == |ps|
    ensures 0 <= idx < |ps| ==> r[idx] == ps[idx]
    ensures forall q :: 0 <= q < |ps| && q != idx ==> r[q] == PlayerState(ps[q].name, [], ps[q].marbles)
  {
    seq(|ps|, q requires 0 <= q < |ps| => if q == idx then ps[q] else PlayerState(ps[q].name, [], ps[q].marbles))
  }

  /** The view shows exactly the cards of the named player and no other, and
      every marble. */
  lemma {:induction false} MaskShowsOwnCardsOnly(ps: seq<PlayerState>, idx: int)
    ensures HandsMultiset(MaskPlayers(ps, idx)) == if 0 <= idx < |ps| then multiset(ps[idx].hand) else multiset{}
    ensures AllMarbles(MaskPlayers(ps, idx)) == AllMarbles(ps)
  {
    MaskHands(ps, idx);
    MarblesIgnoreHands(MaskPlayers(ps, idx), ps);
  }

  lemma {:induction false} MaskHands(ps: seq<PlayerState>, idx: int)
    ensures HandsMultiset(MaskPlayers(ps, idx)) == if 0 <= idx < |ps| then multiset(ps[idx].hand) else multiset{}
  {
    if ps != [] {
      var n := |ps| - 1;
      MaskHands(ps[..n], idx);
      assert MaskPlayers(ps, idx)[..n] == MaskPlayers(ps[..n], idx);
    }
  }

  /** The marble listing depends on names and marbles only. */
  lemma {:induction false} MarblesIgnoreHands(ps: seq<PlayerState>, ps': seq<PlayerState>)
    requires |ps| == |ps'|
    requires forall q :: 0 <= q < |ps| ==> ps[q].name == ps'[q].name && ps[q].marbles == ps'[q].marbles
    ensures AllMarbles(ps) == AllMarbles(ps')
  {
    if ps != [] {
      var n := |ps| - 1;
      MarblesIgnoreHands(ps[..n], ps'[..n]);
    }
  }

  /** The card dealt in round r to seat q is deal number 4r + q. */
  lemma SeatOfDeal(r: int, q: int)
    requires 0 <= q < PlayerCount
    ensures (4 * r + q) % PlayerCount == q
  {
  }

  // ---------------------------------------------------------------------
  // The engine

  class Dog {
    var state: GameState

    /** `__init__` and `initialize_game` (dog.py:110-158), with the shuffle
        and the starting player drawn by the caller's choice. */
    constructor (startingPlayer: PlayerIndex)
      ensures exists deck ::
        multiset(deck) == multiset(FullDeck()) && DealOutcome(InitialState(deck, startingPlayer), state, Pass)
      ensures GameStateCheck(state) == Pass
      ensures WellFormed(state)
    {
      var deck := Shuffle(FullDeck());
      state := InitialState(deck, startingPlayer);
      new;
      ghost var s0 := state;
      var o := DealCards();
      assert |FullDeck()| == 110;
      assert |deck| == 110 by {
        assert |multiset(deck)| == |multiset(FullDeck())|;
      }
      DealCardsEffect(s0, state, o);
      InitialStateFacts(deck, startingPlayer);
      assert CardCount(s0) == 110 by {
        assert |AllCards(s0)| == |multiset(deck)|;
      }
      DealFromEmptyHandsIsValid(s0, state, o);
    }

    /** `reshuffle_discard_into_draw` (dog.py:561-582): raises on an empty
        discard pile; otherwise the discard pile is emptied onto the draw
        pile, which is shuffled. */
    method ReshuffleDiscardIntoDraw() returns (o: Outcome<DogError>)
      modifies this
      ensures old(state).discardPile == [] ==> o == Fail(EmptyDiscardPile) && state == old(state)
      ensures old(state).discardPile != [] ==>
        && o == Pass
        && multiset(state.drawPile) == multiset(old(state).drawPile) + multiset(old(state).discardPile)
        && state == old(state).(drawPile := state.drawPile, discardPile := [])
    {
      if state.discardPile == [] {
        return Fail(EmptyDiscardPile);
      }
      state := state.(drawPile := state.drawPile + state.discardPile, discardPile := []);
      var shuffled := Shuffle(state.drawPile);
      state := state.(drawPile := shuffled);
      o := Pass;
    }

    /** `deal_cards` (dog.py:584-611). */
    method DealCards() returns (o: Outcome<DogError>)
      requires WellFormed(state)
      modifies this
      ensures DealOutcome(old(state), state, o)
      ensures WellFormed(state)
    {
      ghost var s0 := state;
      var n := CardsPerRound(state.cntRound);
      var need := n * state.cntPlayer;
      assert need == 4 * n;
      while |state.drawPile| < need
        invariant state == s0 ||
          (|s0.drawPile| < need && s0.discardPile != [] && state.discardPile == [] &&
           multiset(state.drawPile) == multiset(Restocked(s0).drawPile) &&
           state == Restocked(s0).(drawPile := state.drawPile))
        invariant WellFormed(state)
        decreases |state.discardPile|
      {
        if state.discardPile == [] {
          if state == s0 {
            assert DealtWith(s0, s0.drawPile, state, Fail(NotEnoughCards));
          } else {
            assert |multiset(state.drawPile)| == |multiset(Restocked(s0).drawPile)|;
            assert DealtWith(s0, state.drawPile, state, Fail(NotEnoughCards));
          }
          return Fail(NotEnoughCards);
        }
        var _ := ReshuffleDiscardIntoDraw();
      }
      assert |multiset(state.drawPile)| == |multiset(Restocked(s0).drawPile)|;
      assert multiset(state.drawPile) == multiset(Restocked(s0).drawPile) && state == Restocked(s0).(drawPile := state.drawPile);
      var shuffled := Shuffle(state.drawPile);
      state := state.(drawPile := shuffled);
      ghost var t0 := state;
      assert |shuffled| == |Restocked(s0).drawPile| by {
        assert |multiset(shuffled)| == |multiset(Restocked(s0).drawPile)|;
      }
      DealRounds(n);
      o := Pass;
      DealKeepsRest(t0, 4 * n);
      assert DealtWith(s0, t0.drawPile, state, o);
    }

    /** The dealing loops of `deal_cards` (dog.py:601-611): n times, one
        card from the top of the draw pile to each player in seat order. */
    method DealRounds(n: nat)
      requires |state.players| == PlayerCount && 4 * n <= |state.drawPile|
      modifies this
      ensures state == DealSteps(old(state), 4 * n)
    {
      ghost var t0 := state;
      var k := 0;
      for r := 0 to n
        invariant k == 4 * r
        invariant state == DealSteps(t0, k)
      {
        for q := 0 to |state.players|
          invariant |state.players| == PlayerCount
          invariant k == 4 * r + q
          invariant state == DealSteps(t0, k)
        {
          // the reshuffle branch of dog.py:604-608 cannot be taken here
          assert state.drawPile != [];
          ghost var before := state;
          SeatOfDeal(r, q);
          assert DealSteps(t0, k + 1) == DealOne(before, q);
          var card := state.drawPile[|state.drawPile| - 1];
          state := state.(drawPile := state.drawPile[..|state.drawPile| - 1],
                          players := state.players[q := state.players[q].(hand := state.players[q].hand + [card])]);
          assert state == DealOne(before, q);
          k := k + 1;
        }
      }
    }

    /** `update_starting_player` (dog.py:555-559). */
    method UpdateStartingPlayer()
      requires state.cntPlayer > 0
      modifies this
      ensures state == old(state).(idxPlayerStarted := PreviousSeat(old(state).idxPlayerStarted, old(state).cntPlayer))
    {
      state := state.(idxPlayerStarted := (state.idxPlayerStarted - 1) % state.cntPlayer);
    }

    /** `next_round` (dog.py:635-653): next round, previous starting seat,
        empty hands, then dealing. */
    method NextRound() returns (o: Outcome<DogError>)
      requires WellFormed(state)
      modifies this
      ensures DealOutcome(RoundStart(old(state)), state, o)
      ensures WellFormed(state)
    {
      state := state.(cntRound := state.cntRound + 1);
      UpdateStartingPlayer();
      ghost var s1 := state;
      var i := 0;
      while i < |state.players|
        invariant 0 <= i <= |state.players| == PlayerCount
        invariant state == s1.(players := state.players)
        invariant forall q :: 0 <= q < PlayerCount ==> state.players[q] == if q < i then s1.players[q].(hand := []) else s1.players[q]
      {
        state := state.(players := state.players[i := state.players[i].(hand := [])]);
        i := i + 1;
      }
      assert state == RoundStart(old(state));
      o := DealCards();
    }

    /** `validate_game_state` (dog.py:616-632). */
    method ValidateGameState() returns (o: Outcome<DogError>)
      ensures o == GameStateCheck(state)
    {
      var ps := state.players;
      var expected := CardsPerRound(state.cntRound);
      var i := 0;
      while i < |ps|
        invariant 0 <= i <= |ps|
        invariant FirstOverfull(ps, expected, i) == FirstOverfull(ps, expected, 0)
      {
        if |ps[i].hand| > expected {
          return Fail(TooManyCards(ps[i].name));
        }
        i := i + 1;
      }
      var total := |state.drawPile| + |state.discardPile|;
      i := 0;
      while i < |ps|
        invariant 0 <= i <= |ps|
        invariant total == |state.drawPile| + |state.discardPile| + HandsSize(ps[..i])
      {
        assert ps[..i + 1][..i] == ps[..i];
        total := total + |ps[i].hand|;
        i := i + 1;
      }
      assert ps[..|ps|] == ps;
      assert |FullDeck()| == 110;
      if total != |FullDeck()| {
        return Fail(CardTotalMismatch);
      }
      o := Pass;
    }

    /** The masking loop of `get_player_view` (dog.py:656-665). */
    method GetPlayerView(idxPlayer: int) returns (masked: seq<PlayerState>)
      ensures masked == MaskPlayers(state.players, idxPlayer)
    {
      masked := [];
      var i := 0;
      while i < |state.players|
        invariant 0 <= i <= |state.players|
        invariant masked == MaskPlayers(state.players, idxPlayer)[..i]
      {
        var player := state.players[i];
        if i == idxPlayer {
          masked := masked + [player];
        } else {
          masked := masked + [PlayerState(player.name, [], player.marbles)];
        }
        i := i + 1;
      }
    }

    // -------------------------------------------------------------------
    // Move generation

    /** `get_list_action` (dog.py:378-471): the actions of every card in
        the active player's hand, card by card. */
    method GetListAction() returns (actions: seq<Action>)
      requires WellFormed(state)
      ensures actions == LegalActions(state)
    {
      var p := state.idxPlayerActive;
      var me := state.players[p];
      var all := AllMarbles(state.players);
      var blocked := Blocked(state.players);
      actions := [];
      var i := 0;
      while i < |me.hand|
        invariant 0 <= i <= |me.hand|
        invariant actions == HandActions(state, me.hand[..i])
      {
        assert me.hand[..i + 1][..i] == me.hand[..i];
        var cardActions := CardMoves(me.hand[i], me.marbles, all, p, blocked);
        actions := actions + cardActions;
        i := i + 1;
      }
      assert me.hand[..|me.hand|] == me.hand;
    }

    /** The body of the card loop of `get_list_action` (dog.py:407-469). */
    method CardMoves(card: Card, ms: seq<Marble>, all: seq<MarbleInfo>, p: PlayerIndex, blocked: set<int>)
      returns (r: seq<Action>)
      ensures r == CardActionsIn(card, ms, all, p, blocked)
    {
      var inKennel := KennelMarbles(ms, p);
      r := [];
      if |inKennel| > 0 && StartFree(ms, p) {
        if card.rank in StartingRanks {
          r := [Action(card, Some(inKennel[0].pos), Some(StartPosition(p)), None)];
        }
        if card.rank == "7" || card.rank == "JKR" {
          var split := HandleSevenCard(card, ms, p, blocked);
          r := r + split;
          return;
        }
      }
      var others := [];
      var i := 0;
      while i < |ms|
        invariant 0 <= i <= |ms|
        invariant others == MarblesActions(card, ms[..i], all, p, blocked)
      {
        assert ms[..i + 1][..i] == ms[..i];
        var marbleActions := MarbleMoves(card, ms[i], all, p, blocked);
        others := others + marbleActions;
        i := i + 1;
      }
      assert ms[..|ms|] == ms;
      r := r + others;
    }

    /** The body of the marble loop of `get_list_action` (dog.py:427-469):
        the swaps of a jack or joker, then the moves by each card value. */
    method MarbleMoves(card: Card, m: Marble, all: seq<MarbleInfo>, p: PlayerIndex, blocked: set<int>)
      returns (r: seq<Action>)
      ensures r == MarbleActions(card, m, all, p, blocked)
    {
      if m.pos in Kennel(p) {
        return [];
      }
      var swaps := [];
      if card.rank == "J" || card.rank == "JKR" {
        if !m.isSave {
          swaps := SwapMoves(card, m.pos, all, p);
        }
      }
      var moves := ValueMoves(card, m.pos, p, blocked, CardValues(card));
      r := swaps + moves;
    }

    /** The swap loop of dog.py:433-456: one swap with every marble of
        another player that is not protected. */
    method SwapMoves(card: Card, from: int, all: seq<MarbleInfo>, p: PlayerIndex)
      returns (swaps: seq<Action>)
      ensures swaps == SwapActions(card, from, all, p)
    {
      swaps := [];
      var j := 0;
      while j < |all|
        invariant 0 <= j <= |all|
        invariant swaps == SwapActions(card, from, all[..j], p)
      {
        assert all[..j + 1][..j] == all[..j];
        var t := all[j];
        if t.playerIdx != p && 0 <= t.playerIdx < PlayerCount {
          if t.position in SafeSpaces(t.playerIdx) || t.position in Kennel(t.playerIdx) ||
             t.position == StartPosition(t.playerIdx) || t.isSave {
          } else {
            swaps := swaps + [Action(card, Some(from), Some(t.position), None)];
          }
        }
        j := j + 1;
      }
      assert all[..|all|] == all;
    }

    /** The value loop of dog.py:459-469: one plain move per card value the
        marble can move by. */
    method ValueMoves(card: Card, from: int, p: PlayerIndex, blocked: set<int>, values: seq<int>)
      returns (moves: seq<Action>)
      ensures moves == MovesByValues(card, from, p, blocked, values)
    {
      moves := [];
      var j := 0;
      while j < |values|
        invariant 0 <= j <= |values|
        invariant moves == MovesByValues(card, from, p, blocked, values[..j])
      {
        assert values[..j + 1][..j] == values[..j];
        var to := NewPosition(from, values[j], p, blocked);
        if to.Some? {
          moves := moves + [Action(card, Some(from), to, None)];
        }
        j := j + 1;
      }
      assert values[..|values|] == values;
    }

    /** `_handle_seven_card` (dog.py:311-374): the search for the splits of
        seven steps over the marbles outside the kennel, then one action per
        leg of every split found. */
    method HandleSevenCard(card: Card, ms: seq<Marble>, p: PlayerIndex, blocked: set<int>)
      returns (actions: seq<Action>)
      ensures actions == SevenActions(card, ms, p, blocked)
    {
      var outside := OutsideKennel(ms, p);
      if outside == [] {
        return [];
      }
      var moves := new int[|outside|](_ => 0);
      assert moves[..] == Zeros(|outside|);
      var results := Dfs(outside, p, blocked, 7, moves, []);
      assert results == SevenSplits(outside, p, blocked);
      actions := [];
      var i := 0;
      while i < |results|
        invariant 0 <= i <= |results|
        invariant actions == FlatMap(results[..i], SplitActionsOf(card, outside, p, blocked))
      {
        assert results[..i + 1][..i] == results[..i];
        var legActions := SplitMoves(card, outside, p, blocked, results[i]);
        actions := actions + legActions;
        i := i + 1;
      }
      assert results[..|results|] == results;
    }

    /** The inner loop of dog.py:366-374: one action per leg of a split
        whose marble can move its steps. */
    method SplitMoves(card: Card, outside: seq<int>, p: PlayerIndex, blocked: set<int>, split: seq<Leg>)
      returns (legActions: seq<Action>)
      ensures legActions == LegActions(card, outside, p, blocked, split)
    {
      legActions := [];
      var j := 0;
      while j < |split|
        invariant 0 <= j <= |split|
        invariant legActions == LegActions(card, outside, p, blocked, split[..j])
      {
        assert split[..j + 1][..j] == split[..j];
        var l := split[j];
        if 0 <= l.marble < |outside| {
          var to := NewPosition(outside[l.marble], l.steps, p, blocked);
          if to.Some? {
            legActions := legActions + [Action(card, Some(outside[l.marble]), to, None)];
          }
        }
        j := j + 1;
      }
      assert split[..|split|] == split;
    }

    // -------------------------------------------------------------------
    // Applying an action

    /** `apply_action` (dog.py:473-548): when every hand is empty a new
        round starts first (and its failure ends the call), then the turn is
        played. An action always names its destination. */
    method ApplyAction(action: Option<Action>) returns (o: Outcome<DogError>)
      requires WellFormed(state)
      requires action.Some? ==> action.value.posTo.Some?
      modifies this
      ensures !AllHandsEmpty(old(state).players) ==> TurnResult(state, o) == PlayTurn(old(state), action)
      ensures AllHandsEmpty(old(state).players) ==>
        exists s1: GameState, o1: Outcome<DogError> ::
          && WellFormed(s1) && DealOutcome(RoundStart(old(state)), s1, o1)
          && (o1.Fail? ==> state == s1 && o == o1)
          && (o1.Pass? ==> TurnResult(state, o) == PlayTurn(s1, action))
    {
      if AllHandsEmpty(state.players) {
        var dealt := NextRound();
        ghost var s1 := state;
        if dealt.Fail? {
          return dealt;
        }
        o := Play(action);
        assert DealOutcome(RoundStart(old(state)), s1, dealt);
        return;
      }
      o := Play(action);
    }

    /** The turn proper (dog.py:484-548). */
    method Play(action: Option<Action>) returns (o: Outcome<DogError>)
      requires WellFormed(state)
      requires action.Some? ==> action.value.posTo.Some?
      modifies this
      ensures TurnResult(state, o) == PlayTurn(old(state), action)
    {
      var p := state.idxPlayerActive;
      if action.None? {
        state := state.(discardPile := state.discardPile + state.players[p].hand);
        state := state.(players := state.players[p := state.players[p].(hand := [])]);
        state := state.(idxPlayerActive := (state.idxPlayerActive + 1) % |state.players|);
        return Pass;
      }
      var a := action.value;
      var to := a.posTo.value;
      var hand' := RemoveFirst(state.players[p].hand, a.card);
      if hand'.None? {
        return Fail(CardNotInHand);
      }
      state := state.(players := state.players[p := state.players[p].(hand := hand'.value)]);
      state := state.(discardPile := state.discardPile + [a.card]);
      o := MoveMarble(a.posFrom, to);
      if o.Fail? {
        return;
      }
      ResolveCollisions(to);
      state := state.(idxPlayerActive := (state.idxPlayerActive + 1) % |state.players|);
    }

    /** The marble move of dog.py:510-527: the first own marble on the
        source cell is moved, or MarbleNotFound is raised (not for a kennel
        exit onto cell 0, where a missing marble is ignored). */
    method MoveMarble(from: Option<int>, to: int) returns (o: Outcome<DogError>)
      requires WellFormed(state)
      modifies this
      ensures var p := old(state).idxPlayerActive;
        var moved := MovedMarbles(old(state).players[p].marbles, p, from, to);
        && (moved.None? ==> o == Fail(MarbleNotFound) && state == old(state))
        && (moved.Some? ==> o == Pass && state == old(state).(players := old(state).players[p := old(state).players[p].(marbles := moved.value)]))
    {
      var p := state.idxPlayerActive;
      var ms := state.players[p].marbles;
      var i := 0;
      if from.Some? && from.value in Kennel(p) && to == 0 {
        while i < |ms|
          invariant 0 <= i <= |ms|
          invariant forall j :: 0 <= j < i ==> ms[j].pos != from.value
        {
          if ms[i].pos == from.value {
            state := state.(players := state.players[p := state.players[p].(marbles := ms[i := Marble(to, true)])]);
            break;
          }
          i := i + 1;
        }
        return Pass;
      }
      while i < |ms|
        invariant 0 <= i <= |ms|
        invariant forall j :: 0 <= j < i ==> from.None? || ms[j].pos != from.value
      {
        if from.Some? && ms[i].pos == from.value {
          state := state.(players := state.players[p := state.players[p].(marbles := ms[i := Marble(to, to in SafeSpaces(p))])]);
          return Pass;
        }
        i := i + 1;
      }
      return Fail(MarbleNotFound);
    }

    /** The capture loops of dog.py:530-545: every marble of another player
        on `to` goes back to the first free slot of its owner's kennel. */
    method ResolveCollisions(to: int)
      requires WellFormed(state)
      modifies this
      ensures state == old(state).(players := ResolveCaptures(old(state).players, old(state).idxPlayerActive, to, 0, 0))
    {
      ghost var s0 := state;
      var p := state.idxPlayerActive;
      var i := 0;
      while i < |state.players|
        invariant 0 <= i <= |state.players| == PlayerCount
        invariant state == s0.(players := state.players)
        invariant ResolveCaptures(state.players, p, to, i, 0) == ResolveCaptures(s0.players, p, to, 0, 0)
      {
        if i != p {
          var j := 0;
          while j < |state.players[i].marbles|
            invariant |state.players| == PlayerCount
            invariant 0 <= j <= |state.players[i].marbles|
            invariant state == s0.(players := state.players)
            invariant ResolveCaptures(state.players, p, to, i, j) == ResolveCaptures(s0.players, p, to, 0, 0)
          {
            if state.players[i].marbles[j].pos == to {
              var slot := FindFreeSlot(i);
              ghost var before := state.players;
              if slot.Some? {
                state := state.(players := state.players[i := state.players[i].(marbles := state.players[i].marbles[j := Marble(slot.value, false)])]);
              }
              assert state.players == Capture(before, i, j);
            }
            j := j + 1;
          }
        }
        i := i + 1;
      }
    }

    /** The kennel search of dog.py:540-545: the first slot of player i's
        kennel on which no marble stands. */
    method FindFreeSlot(i: PlayerIndex) returns (slot: Option<int>)
      ensures slot == FreeKennelSlot(state.players, i)
    {
      var kennel := Kennel(i);
      Layout(i);
      var k := 0;
      while k < |kennel|
        invariant 0 <= k <= |kennel|
        invariant forall t :: 0 <= t < k ==> !PositionFree(state.players, kennel[t])
      {
        if PositionFree(state.players, kennel[k]) {
          return Some(kennel[k]);
        }
        k := k + 1;
      }
      return None;
    }
  }
}
