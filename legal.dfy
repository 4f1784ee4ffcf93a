/** The move generator `get_list_action` (dog.py:378-471): for every card in
    the active player's hand, the start move out of the kennel, the seven
    card's split moves, the jack's swaps and the plain moves by each value
    of the card. */
module LegalMoves {
  import opened Wrappers
  import opened Seqs
  import opened Board
  import opened Cards
  import opened DogState
  import opened Movement
  import opened SevenSplit

  /** The marbles of player p that sit in p's kennel, in marble order
      (dog.py:404). */
  function KennelMarbles(ms: seq<Marble>, p: PlayerIndex): (r: seq<Marble>)
    ensures forall m :: m in r <==> m in ms && m.pos in Kennel(p)
    ensures r != [] ==> r[0] in ms && r[0].pos in Kennel(p)
  {
    if ms == [] then []
    else
      var front := KennelMarbles(ms[..|ms| - 1], p);
      var last := ms[|ms| - 1];
      assert ms == ms[..|ms| - 1] + [last];
      front + (if last.pos in Kennel(p) then [last] else [])
  }

  /** None of the marbles stands on p's start cell (dog.py:412). */
  predicate StartFree(ms: seq<Marble>, p: PlayerIndex)
  {
    forall m :: m in ms ==> m.pos != StartPosition(p)
  }

  predicate IsSwapRank(c: Card)
  {
    c.rank == "J" || c.rank == "JKR"
  }

  predicate IsSevenRank(c: Card)
  {
    c.rank == "7" || c.rank == "JKR"
  }

  /** A marble another player may be swapped with (dog.py:433-448): it
      belongs to another seat, is neither in its owner's safe space, kennel
      or start cell, nor protected. */
  predicate SwapTarget(t: MarbleInfo, p: PlayerIndex)
  {
    && t.playerIdx != p
    && 0 <= t.playerIdx < PlayerCount
    && t.position !in SafeSpaces(t.playerIdx)
    && t.position !in Kennel(t.playerIdx)
    && t.position != StartPosition(t.playerIdx)
    && !t.isSave
  }

  /** The swap action with one listed marble, if it is a swap target. */
  function SwapWith(card: Card, from: int, p: PlayerIndex, t: MarbleInfo): seq<Action>
  {
    if SwapTarget(t, p) then [Action(card, Some(from), Some(t.position), None)] else []
  }

  /** The swap actions of the marble at `from` (dog.py:433-456). */
  function SwapActions(card: Card, from: int, all: seq<MarbleInfo>, p: PlayerIndex): seq<Action>
  {
    FlatMap(all, t => SwapWith(card, from, p, t))
  }

  /** The plain move by one card value, if `_calculate_new_position` accepts it. */
  function MoveBy(card: Card, from: int, p: PlayerIndex, blocked: set<int>, v: int): seq<Action>
  {
    if NewPosition(from, v, p, blocked).Some? then [Action(card, Some(from), NewPosition(from, v, p, blocked), None)] else []
  }

  /** The plain moves of the marble at `from`, one per card value it can
      move by (dog.py:459-469). */
  function DirectMoves(card: Card, from: int, p: PlayerIndex, blocked: set<int>): seq<Action>
  {
    MovesByValues(card, from, p, blocked, CardValues(card))
  }

  /** The plain moves by the values `vs`, value by value. */
  function MovesByValues(card: Card, from: int, p: PlayerIndex, blocked: set<int>, vs: seq<int>): seq<Action>
  {
    FlatMap(vs, v => MoveBy(card, from, p, blocked, v))
  }

  /** The actions of one marble for one card (dog.py:427-469): none in the
      kennel; otherwise first the swaps of an unprotected marble with a jack
      or joker, then the plain moves. */
  function MarbleActions(card: Card, m: Marble, all: seq<MarbleInfo>, p: PlayerIndex, blocked: set<int>): seq<Action>
  {
    if m.pos in Kennel(p) then []
    else
      (if IsSwapRank(card) && !m.isSave then SwapActions(card, m.pos, all, p) else [])
      + DirectMoves(card, m.pos, p, blocked)
  }

  /** The actions of one card of player p, whose marbles are `ms`, given the
      marble listing `all` and the occupied cells `blocked`
      (dog.py:407-469). While a marble waits in the kennel and the start
      cell is free, a start card first yields the start move, and a seven or
      joker yields only its split moves. */
  function CardActionsIn(card: Card, ms: seq<Marble>, all: seq<MarbleInfo>, p: PlayerIndex, blocked: set<int>): seq<Action>
  {
    var inKennel := KennelMarbles(ms, p);
    var others := MarblesActions(card, ms, all, p, blocked);
    if |inKennel| > 0 && StartFree(ms, p) then
      (if card.rank in StartingRanks then [Action(card, Some(inKennel[0].pos), Some(StartPosition(p)), None)] else [])
      + (if IsSevenRank(card) then SevenActions(card, ms, p, blocked) else others)
    else others
  }

  /** The actions of the marbles `ms` for one card, marble by marble. */
  function MarblesActions(card: Card, ms: seq<Marble>, all: seq<MarbleInfo>, p: PlayerIndex, blocked: set<int>): seq<Action>
  {
    FlatMap(ms, m => MarbleActions(card, m, all, p, blocked))
  }

  /** The actions of one card of the active player of s. */
  function CardActions(s: GameState, card: Card): seq<Action>
    requires WellFormed(s)
  {
    CardActionsIn(card, s.players[s.idxPlayerActive].marbles, AllMarbles(s.players), s.idxPlayerActive, Blocked(s.players))
  }

  /** `get_list_action`: the actions of all cards of the active player's
      hand, card by card. */
  function LegalActions(s: GameState): seq<Action>
    requires WellFormed(s)
  {
    HandActions(s, s.players[s.idxPlayerActive].hand)
  }

  /** The actions of the cards `cards` of the active player, card by card. */
  function HandActions(s: GameState, cards: seq<Card>): seq<Action>
    requires WellFormed(s)
  {
    FlatMap(cards, c => CardActions(s, c))
  }

  // ---------------------------------------------------------------------
  // What each action means, for player p with marbles ms

  /** A start move: a start card takes the first kennel marble to the free
      start cell. */
  predicate StartMove(ms: seq<Marble>, p: PlayerIndex, a: Action)
  {
    && a.card.rank in StartingRanks
    && StartFree(ms, p)
    && KennelMarbles(ms, p) != []
    && a.posFrom == Some(KennelMarbles(ms, p)[0].pos)
    && a.posTo == Some(StartPosition(p))
  }

  /** A swap: a jack or joker swaps an unprotected own marble outside the
      kennel with a swap target of the listing. */
  predicate SwapMove(ms: seq<Marble>, all: seq<MarbleInfo>, p: PlayerIndex, a: Action)
  {
    && IsSwapRank(a.card)
    && a.posFrom.Some?
    && (exists m :: m in ms && m.pos == a.posFrom.value && m.pos !in Kennel(p) && !m.isSave)
    && (exists t :: t in all && SwapTarget(t, p) && a.posTo == Some(t.position))
  }

  /** A plain move: an own marble outside the kennel moves by one of the
      card's values to where `_calculate_new_position` puts it. */
  predicate PlainMove(ms: seq<Marble>, p: PlayerIndex, blocked: set<int>, a: Action)
  {
    && a.posFrom.Some?
    && (exists m :: m in ms && m.pos == a.posFrom.value && m.pos !in Kennel(p))
    && (exists v :: v in CardValues(a.card) && a.posTo == NewPosition(a.posFrom.value, v, p, blocked))
    && a.posTo.Some?
  }

  /** A leg of a seven split. */
  predicate SplitMove(ms: seq<Marble>, p: PlayerIndex, blocked: set<int>, a: Action)
  {
    IsSevenRank(a.card) && SevenMove(a.card, OutsideKennel(ms, p), p, blocked, a)
  }

  predicate ActionKind(ms: seq<Marble>, all: seq<MarbleInfo>, p: PlayerIndex, blocked: set<int>, a: Action)
  {
    StartMove(ms, p, a) || SplitMove(ms, p, blocked, a) || SwapMove(ms, all, p, a) || PlainMove(ms, p, blocked, a)
  }

  /** Every generated action plays a card of the active player's hand, swaps
      no card, and is a start move, a seven split leg, a swap or a plain
      move. */
  lemma LegalActionsSound(s: GameState, a: Action)
    requires WellFormed(s)
    requires a in LegalActions(s)
    ensures a.card in s.players[s.idxPlayerActive].hand
    ensures a.cardSwap == None
    ensures ActionKind(s.players[s.idxPlayerActive].marbles, AllMarbles(s.players), s.idxPlayerActive, Blocked(s.players), a)
  {
    var p := s.idxPlayerActive;
    var hand := s.players[p].hand;
    var k :| 0 <= k < |hand| && a in CardActions(s, hand[k]);
    CardActionsSound(hand[k], s.players[p].marbles, AllMarbles(s.players), p, Blocked(s.players), a);
  }

  lemma CardActionsSound(card: Card, ms: seq<Marble>, all: seq<MarbleInfo>, p: PlayerIndex, blocked: set<int>, a: Action)
    requires a in CardActionsIn(card, ms, all, p, blocked)
    ensures a.card == card && a.cardSwap == None
    ensures ActionKind(ms, all, p, blocked, a)
  {
    var inKennel := KennelMarbles(ms, p);
    var others := MarblesActions(card, ms, all, p, blocked);
    if |inKennel| > 0 && StartFree(ms, p) && card.rank in StartingRanks
       && a == Action(card, Some(inKennel[0].pos), Some(StartPosition(p)), None) {
      assert StartMove(ms, p, a);
    } else if |inKennel| > 0 && StartFree(ms, p) && IsSevenRank(card) {
      SevenActionsSound(card, ms, p, blocked, a);
    } else {
      assert a in others;
      var j :| 0 <= j < |ms| && a in MarbleActions(card, ms[j], all, p, blocked);
      MarbleActionsSound(card, ms, all, p, blocked, ms[j], a);
    }
  }

  lemma MarbleActionsSound(card: Card, ms: seq<Marble>, all: seq<MarbleInfo>, p: PlayerIndex, blocked: set<int>, m: Marble, a: Action)
    requires m in ms
    requires a in MarbleActions(card, m, all, p, blocked)
    ensures a.card == card && a.cardSwap == None
    ensures SwapMove(ms, all, p, a) || PlainMove(ms, p, blocked, a)
  {
    if a in DirectMoves(card, m.pos, p, blocked) {
      var vs := CardValues(card);
      var k :| 0 <= k < |vs| && a in MoveBy(card, m.pos, p, blocked, vs[k]);
      assert PlainMove(ms, p, blocked, a);
    } else {
      var k :| 0 <= k < |all| && a in SwapWith(card, m.pos, p, all[k]);
      assert SwapMove(ms, all, p, a);
    }
  }

  // ---------------------------------------------------------------------
  // Which actions are generated

  /** Whatever one card of the hand yields is among the legal actions. */
  lemma CardActionsIncluded(s: GameState, card: Card, a: Action)
    requires WellFormed(s)
    requires card in s.players[s.idxPlayerActive].hand
    requires a in CardActions(s, card)
    ensures a in LegalActions(s)
  {
    var hand := s.players[s.idxPlayerActive].hand;
    var k :| 0 <= k < |hand| && hand[k] == card;
  }

  /** A start card in hand yields the start move of the first kennel marble
      while the start cell is free, whatever the seven rule does. */
  lemma StartMoveOffered(s: GameState, card: Card)
    requires WellFormed(s)
    requires card in s.players[s.idxPlayerActive].hand && card.rank in StartingRanks
    requires KennelMarbles(s.players[s.idxPlayerActive].marbles, s.idxPlayerActive) != []
    requires StartFree(s.players[s.idxPlayerActive].marbles, s.idxPlayerActive)
    ensures Action(card, Some(KennelMarbles(s.players[s.idxPlayerActive].marbles, s.idxPlayerActive)[0].pos),
                   Some(StartPosition(s.idxPlayerActive)), None) in LegalActions(s)
  {
    var a := Action(card, Some(KennelMarbles(s.players[s.idxPlayerActive].marbles, s.idxPlayerActive)[0].pos),
                    Some(StartPosition(s.idxPlayerActive)), None);
    assert a in CardActions(s, card);
    CardActionsIncluded(s, card, a);
  }

  /** A marble leaves the kennel only by a start move, which needs the start
      cell free of the player's own marbles. */
  lemma StartMoveNeedsFreeStart(s: GameState, a: Action)
    requires WellFormed(s)
    requires a in LegalActions(s)
    requires a.posFrom.Some? && a.posFrom.value in Kennel(s.idxPlayerActive)
    ensures StartMove(s.players[s.idxPlayerActive].marbles, s.idxPlayerActive, a)
    ensures KennelMarbles(s.players[s.idxPlayerActive].marbles, s.idxPlayerActive) != []
  {
    var p := s.idxPlayerActive;
    var ms := s.players[p].marbles;
    LegalActionsSound(s, a);
    var m :| m in ms && m.pos == a.posFrom.value;
    assert m in KennelMarbles(ms, p);
  }

  /** While a marble waits in the kennel and the start cell is free, a seven
      or joker yields only the joker's start move and the seven card's split
      legs: no swap and no move by another value. */
  lemma SevenRuleTakesOver(card: Card, ms: seq<Marble>, all: seq<MarbleInfo>, p: PlayerIndex, blocked: set<int>, a: Action)
    requires IsSevenRank(card) && KennelMarbles(ms, p) != [] && StartFree(ms, p)
    requires a in CardActionsIn(card, ms, all, p, blocked)
    ensures (card.rank == "JKR" && a == Action(card, Some(KennelMarbles(ms, p)[0].pos), Some(StartPosition(p)), None))
         || (a in SevenActions(card, ms, p, blocked) && SevenMove(card, OutsideKennel(ms, p), p, blocked, a))
  {
    if a in SevenActions(card, ms, p, blocked) {
      SevenActionsSound(card, ms, p, blocked, a);
    }
  }

  /** Otherwise the seven and the joker take the ordinary path: a seven
      moves one marble by exactly seven, a joker swaps or moves plainly. */
  lemma SevenRuleOff(card: Card, ms: seq<Marble>, all: seq<MarbleInfo>, p: PlayerIndex, blocked: set<int>, a: Action)
    requires IsSevenRank(card) && !(KennelMarbles(ms, p) != [] && StartFree(ms, p))
    requires a in CardActionsIn(card, ms, all, p, blocked)
    ensures SwapMove(ms, all, p, a) || PlainMove(ms, p, blocked, a)
    ensures card.rank == "7" ==> PlainMove(ms, p, blocked, a) && a.posTo == NewPosition(a.posFrom.value, 7, p, blocked)
  {
    var j :| 0 <= j < |ms| && a in MarbleActions(card, ms[j], all, p, blocked);
    MarbleActionsSound(card, ms, all, p, blocked, ms[j], a);
    if card.rank == "7" {
      assert CardValues(card) == [7] by {
        HighRankValues(card.suit);
        assert card == Card(card.suit, "7");
      }
    }
  }

  /** While a marble waits in the kennel and the start cell is free, a seven
      or joker in hand offers every leg of every split the search records. */
  lemma SplitLegOffered(s: GameState, card: Card, split: seq<Leg>, l: Leg)
    requires WellFormed(s)
    requires card in s.players[s.idxPlayerActive].hand && IsSevenRank(card)
    requires KennelMarbles(s.players[s.idxPlayerActive].marbles, s.idxPlayerActive) != []
    requires StartFree(s.players[s.idxPlayerActive].marbles, s.idxPlayerActive)
    requires split in SevenSplits(OutsideKennel(s.players[s.idxPlayerActive].marbles, s.idxPlayerActive), s.idxPlayerActive, Blocked(s.players))
    requires l in split
    ensures var outside := OutsideKennel(s.players[s.idxPlayerActive].marbles, s.idxPlayerActive);
      && 0 <= l.marble < |outside|
      && Action(card, Some(outside[l.marble]), NewPosition(outside[l.marble], l.steps, s.idxPlayerActive, Blocked(s.players)), None) in LegalActions(s)
  {
    var p := s.idxPlayerActive;
    var ms := s.players[p].marbles;
    var blocked := Blocked(s.players);
    var outside := OutsideKennel(ms, p);
    var _ := SevenSplitSound(outside, p, blocked, split);
    var a := Action(card, Some(outside[l.marble]), NewPosition(outside[l.marble], l.steps, p, blocked), None);
    assert a in LegAction(card, outside, p, blocked, l);
    var k :| 0 <= k < |split| && split[k] == l;
    assert a in LegActions(card, outside, p, blocked, split);
    var splits := SevenSplits(outside, p, blocked);
    var t :| 0 <= t < |splits| && splits[t] == split;
    assert a in SplitActionsOf(card, outside, p, blocked)(splits[t]);
    assert a in SevenActions(card, ms, p, blocked);
    assert a in CardActions(s, card);
    CardActionsIncluded(s, card, a);
  }

  /** ... and so every distribution of seven steps over the marbles outside
      the kennel in which each marble can move every count up to its own
      offers the move of each marble by its count. */
  lemma DistributionLegOffered(s: GameState, card: Card, final: seq<int>, k: int)
    requires WellFormed(s)
    requires card in s.players[s.idxPlayerActive].hand && IsSevenRank(card)
    requires KennelMarbles(s.players[s.idxPlayerActive].marbles, s.idxPlayerActive) != []
    requires StartFree(s.players[s.idxPlayerActive].marbles, s.idxPlayerActive)
    requires |final| == |OutsideKennel(s.players[s.idxPlayerActive].marbles, s.idxPlayerActive)| && Sum(final) == 7
    requires forall q :: 0 <= q < |final| ==> final[q] >= 0
    requires forall q, v :: 0 <= q < |final| && 1 <= v <= final[q] ==>
      NewPosition(OutsideKennel(s.players[s.idxPlayerActive].marbles, s.idxPlayerActive)[q], v, s.idxPlayerActive, Blocked(s.players)).Some?
    requires 0 <= k < |final| && final[k] > 0
    ensures var outside := OutsideKennel(s.players[s.idxPlayerActive].marbles, s.idxPlayerActive);
      Action(card, Some(outside[k]), NewPosition(outside[k], final[k], s.idxPlayerActive, Blocked(s.players)), None) in LegalActions(s)
  {
    var outside := OutsideKennel(s.players[s.idxPlayerActive].marbles, s.idxPlayerActive);
    SevenSplitComplete(outside, s.idxPlayerActive, Blocked(s.players), final);
    SplitOfFacts(final);
    SplitLegOffered(s, card, SplitOf(final), Leg(k, final[k]));
  }

  /** The actions a marble outside the kennel has for one card are among that card's actions, unless the seven rule takes over the card. */
  lemma {:induction false} MarbleActionInCard(card: Card, ms: seq<Marble>, all: seq<MarbleInfo>, p: PlayerIndex, blocked: set<int>, m: Marble, a: Action)
    requires m in ms && m.pos !in Kennel(p)
    requires a in MarbleActions(card, m, all, p, blocked)
    requires !(IsSevenRank(card) && KennelMarbles(ms, p) != [] && StartFree(ms, p))
    ensures a in CardActionsIn(card, ms, all, p, blocked)
  {
    var j :| 0 <= j < |ms| && ms[j] == m;
    assert a in MarblesActions(card, ms, all, p, blocked);
  }

  /** A plain move by a value of a card in hand, of a marble outside the
      kennel, to a cell `_calculate_new_position` accepts, is generated
      unless the seven rule takes over the card. */
  lemma PlainMoveOffered(s: GameState, card: Card, m: Marble, v: int)
    requires WellFormed(s)
    requires card in s.players[s.idxPlayerActive].hand
    requires m in s.players[s.idxPlayerActive].marbles && m.pos !in Kennel(s.idxPlayerActive)
    requires v in CardValues(card)
    requires NewPosition(m.pos, v, s.idxPlayerActive, Blocked(s.players)).Some?
    requires !(IsSevenRank(card) && KennelMarbles(s.players[s.idxPlayerActive].marbles, s.idxPlayerActive) != []
               && StartFree(s.players[s.idxPlayerActive].marbles, s.idxPlayerActive))
    ensures Action(card, Some(m.pos), NewPosition(m.pos, v, s.idxPlayerActive, Blocked(s.players)), None) in LegalActions(s)
  {
    var p := s.idxPlayerActive;
    var blocked := Blocked(s.players);
    var a := Action(card, Some(m.pos), NewPosition(m.pos, v, p, blocked), None);
    var vs := CardValues(card);
    var i :| 0 <= i < |vs| && vs[i] == v;
    assert a in MoveBy(card, m.pos, p, blocked, vs[i]);
    assert a in DirectMoves(card, m.pos, p, blocked);
    MarbleActionInCard(card, s.players[p].marbles, AllMarbles(s.players), p, blocked, m, a);
    CardActionsIncluded(s, card, a);
  }

  /** A swap of an unprotected own marble outside the kennel with an
      eligible marble of another player is generated for a jack or joker in
      hand, unless the seven rule takes over the card. */
  lemma SwapOffered(s: GameState, card: Card, m: Marble, t: MarbleInfo)
    requires WellFormed(s)
    requires card in s.players[s.idxPlayerActive].hand && IsSwapRank(card)
    requires m in s.players[s.idxPlayerActive].marbles && m.pos !in Kennel(s.idxPlayerActive) && !m.isSave
    requires t in AllMarbles(s.players) && SwapTarget(t, s.idxPlayerActive)
    requires !(IsSevenRank(card) && KennelMarbles(s.players[s.idxPlayerActive].marbles, s.idxPlayerActive) != []
               && StartFree(s.players[s.idxPlayerActive].marbles, s.idxPlayerActive))
    ensures Action(card, Some(m.pos), Some(t.position), None) in LegalActions(s)
  {
    var p := s.idxPlayerActive;
    var all := AllMarbles(s.players);
    var a := Action(card, Some(m.pos), Some(t.position), None);
    var i :| 0 <= i < |all| && all[i] == t;
    assert a in SwapWith(card, m.pos, p, all[i]);
    assert a in SwapActions(card, m.pos, all, p);
    MarbleActionInCard(card, s.players[p].marbles, all, p, Blocked(s.players), m, a);
    CardActionsIncluded(s, card, a);
  }

  /** With every own marble in the kennel and no start card in hand there is
      nothing to do. */
  lemma NoActionWithoutStartCard(s: GameState)
    requires WellFormed(s)
    requires forall m :: m in s.players[s.idxPlayerActive].marbles ==> m.pos in Kennel(s.idxPlayerActive)
    requires forall c :: c in s.players[s.idxPlayerActive].hand ==> c.rank !in StartingRanks
    ensures LegalActions(s) == []
  {
    if LegalActions(s) != [] {
      LegalActionsSound(s, LegalActions(s)[0]);
    }
  }

  /** When every marble is on the board, every generated action ends on the
      board. */
  lemma ActionsStayOnBoard(s: GameState, a: Action)
    requires WellFormed(s)
    requires forall i, j :: 0 <= i < |s.players| && 0 <= j < |s.players[i].marbles| ==>
      0 <= s.players[i].marbles[j].pos < BoardSize
    requires a in LegalActions(s)
    ensures a.posTo.Some? && 0 <= a.posTo.value < BoardSize
  {
    var p := s.idxPlayerActive;
    var ms := s.players[p].marbles;
    var all := AllMarbles(s.players);
    var blocked := Blocked(s.players);
    LegalActionsSound(s, a);
    if StartMove(ms, p, a) {
      Layout(p);
    } else if SplitMove(ms, p, blocked, a) {
      SplitMoveOnBoard(ms, p, blocked, a);
    } else if SwapMove(ms, all, p, a) {
      var t :| t in all && SwapTarget(t, p) && a.posTo == Some(t.position);
      var ts := s.players[t.playerIdx].marbles;
      var j :| 0 <= j < |ts| && ts[j] == Marble(t.position, t.isSave);
    } else {
      PlainMoveOnBoard(ms, p, blocked, a);
    }
  }

  lemma SplitMoveOnBoard(ms: seq<Marble>, p: PlayerIndex, blocked: set<int>, a: Action)
    requires forall j :: 0 <= j < |ms| ==> 0 <= ms[j].pos < BoardSize
    requires SplitMove(ms, p, blocked, a)
    ensures a.posTo.Some? && 0 <= a.posTo.value < BoardSize
  {
    var from := a.posFrom.value;
    var v :| 1 <= v <= 7 && a.posTo == NewPosition(from, v, p, blocked) && a.posTo.Some?;
    var j :| 0 <= j < |ms| && ms[j].pos == from;
    MoveStaysOnBoard(from, v, p, blocked);
  }

  lemma PlainMoveOnBoard(ms: seq<Marble>, p: PlayerIndex, blocked: set<int>, a: Action)
    requires forall j :: 0 <= j < |ms| ==> 0 <= ms[j].pos < BoardSize
    requires PlainMove(ms, p, blocked, a)
    ensures a.posTo.Some? && 0 <= a.posTo.value < BoardSize
  {
    var from := a.posFrom.value;
    var m :| m in ms && m.pos == from && m.pos !in Kennel(p);
    var v :| v in CardValues(a.card) && a.posTo == NewPosition(from, v, p, blocked);
    var j :| 0 <= j < |ms| && ms[j] == m;
    MoveStaysOnBoard(from, v, p, blocked);
  }
}
