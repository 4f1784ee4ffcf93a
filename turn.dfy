/** One turn of `apply_action` after the round-end check (dog.py:484-548):
    a pass, or playing a card, moving a marble and sending the other
    players' marbles on the destination back to their kennels. */
module Turn {
  import opened Wrappers
  import opened Board
  import opened Cards
  import opened DogState

  /** The index of the first card equal to c. */
  function IndexOf(hand: seq<Card>, c: Card): (k: int)
    requires c in hand
    ensures 0 <= k < |hand| && hand[k] == c && c !in hand[..k]
  {
    if hand[0] == c then 0
    else
      var k := IndexOf(hand[1..], c) + 1;
      assert hand[..k] == [hand[0]] + hand[1..][..k - 1];
      k
  }

  /** `list.remove`: the hand without the first card equal to c, or None
      (the ValueError) when c is not in the hand. */
  function RemoveFirst(hand: seq<Card>, c: Card): (r: Option<seq<Card>>)
    ensures r.Some? <==> c in hand
    ensures r.Some? ==> |r.value| == |hand| - 1 && multiset(r.value) + multiset{c} == multiset(hand)
    ensures r.Some? ==> exists k :: 0 <= k < |hand| && hand[k] == c && c !in hand[..k] && r.value == hand[..k] + hand[k + 1..]
  {
    if c in hand then
      var k := IndexOf(hand, c);
      assert hand == hand[..k] + [c] + hand[k + 1..];
      Some(hand[..k] + hand[k + 1..])
    else None
  }

  /** The index of the first marble standing on `pos`, as the searching
      loops of dog.py:511-526 find it. */
  function FindMarble(ms: seq<Marble>, pos: int): (r: Option<int>)
    ensures r.Some? ==> 0 <= r.value < |ms| && ms[r.value].pos == pos
    ensures r.Some? ==> forall j :: 0 <= j < r.value ==> ms[j].pos != pos
    ensures r.None? ==> forall j :: 0 <= j < |ms| ==> ms[j].pos != pos
  {
    if ms == [] then None
    else if ms[0].pos == pos then Some(0)
    else match FindMarble(ms[1..], pos)
      case None => None
      case Some(k) => Some(k + 1)
  }

  /** The first of player i's kennel slots on which no marble of any player
      stands (dog.py:540-545). */
  function FreeKennelSlot(ps: seq<PlayerState>, i: PlayerIndex): (r: Option<int>)
    ensures r.Some? ==> r.value in Kennel(i) && PositionFree(ps, r.value)
    ensures r.Some? ==> forall k :: 0 <= k < 4 && Kennel(i)[k] < r.value ==> !PositionFree(ps, Kennel(i)[k])
    ensures r.None? ==> forall k :: 0 <= k < 4 ==> !PositionFree(ps, Kennel(i)[k])
  {
    var kn := Kennel(i);
    Layout(i);
    if PositionFree(ps, kn[0]) then Some(kn[0])
    else if PositionFree(ps, kn[1]) then Some(kn[1])
    else if PositionFree(ps, kn[2]) then Some(kn[2])
    else if PositionFree(ps, kn[3]) then Some(kn[3])
    else None
  }

  /** Sending marble j of player i back to the first free slot of i's kennel,
      unprotected; nothing happens when the kennel is full. */
  function Capture(ps: seq<PlayerState>, i: PlayerIndex, j: int): (r: seq<PlayerState>)
    requires i < |ps| && 0 <= j < |ps[i].marbles|
    ensures |r| == |ps| && forall q :: 0 <= q < |ps| && q != i ==> r[q] == ps[q]
    ensures r[i].name == ps[i].name && r[i].hand == ps[i].hand
    ensures FreeKennelSlot(ps, i).Some? ==> r[i].marbles == ps[i].marbles[j := Marble(FreeKennelSlot(ps, i).value, false)]
    ensures FreeKennelSlot(ps, i).None? ==> r == ps
  {
    match FreeKennelSlot(ps, i)
    case None => ps
    case Some(k) => ps[i := ps[i].(marbles := ps[i].marbles[j := Marble(k, false)])]
  }

  /** The entries of player i from marble j on, then of the following
      players, in the order the capture loops visit them. */
  function CaptureMeasure(ps: seq<PlayerState>, i: int, j: int): int
  {
    if 0 <= i < |ps| then |ps[i].marbles| - j else 0
  }

  /** The capture loops of dog.py:530-545, from marble j of player i on:
      every marble of a player other than p that stands on `to` is captured
      in turn, each capture seeing the kennels as the previous ones left
      them. */
  function ResolveCaptures(ps: seq<PlayerState>, p: PlayerIndex, to: int, i: nat, j: nat): (r: seq<PlayerState>)
    requires |ps| == PlayerCount
    ensures |r| == |ps| && r[p] == ps[p]
    ensures forall q :: 0 <= q < |ps| ==> r[q].name == ps[q].name && r[q].hand == ps[q].hand && |r[q].marbles| == |ps[q].marbles|
    decreases |ps| - i, CaptureMeasure(ps, i, j)
  {
    if i >= |ps| then ps
    else if i == p || j >= |ps[i].marbles| then ResolveCaptures(ps, p, to, i + 1, 0)
    else if ps[i].marbles[j].pos == to then ResolveCaptures(Capture(ps, i, j), p, to, i, j + 1)
    else ResolveCaptures(ps, p, to, i, j + 1)
  }

  /** The outcome of a turn: the new state, and whether it raised. */
  datatype TurnResult = TurnResult(state: GameState, outcome: Outcome<DogError>)

  /** The active seat moves on by one (dog.py:489, 548). */
  function NextPlayer(s: GameState): int
    requires |s.players| > 0
  {
    (s.idxPlayerActive + 1) % |s.players|
  }

  /** The active player's marbles after the move of dog.py:510-527, or None
      for the ValueError of dog.py:527: out of the kennel onto cell 0 the
      marble becomes protected, otherwise it is protected exactly in its
      owner's safe space. */
  function MovedMarbles(ms: seq<Marble>, p: PlayerIndex, from: Option<int>, to: int): Option<seq<Marble>>
  {
    var found := if from.Some? then FindMarble(ms, from.value) else None;
    if from.Some? && from.value in Kennel(p) && to == 0 then
      Some(if found.Some? then ms[found.value := Marble(to, true)] else ms)
    else if found.Some? then Some(ms[found.value := Marble(to, to in SafeSpaces(p))])
    else None
  }

  /** `apply_action` from dog.py:484 on; an action always names a
      destination. */
  function PlayTurn(s: GameState, action: Option<Action>): TurnResult
    requires WellFormed(s)
    requires action.Some? ==> action.value.posTo.Some?
  {
    var p := s.idxPlayerActive;
    var me := s.players[p];
    if action.None? then
      TurnResult(s.(discardPile := s.discardPile + me.hand,
                    players := s.players[p := me.(hand := [])],
                    idxPlayerActive := NextPlayer(s)), Pass)
    else
      var a := action.value;
      var to := a.posTo.value;
      match RemoveFirst(me.hand, a.card)
      case None => TurnResult(s, Fail(CardNotInHand))
      case Some(hand') =>
        var s1 := s.(players := s.players[p := me.(hand := hand')], discardPile := s.discardPile + [a.card]);
        match MovedMarbles(me.marbles, p, a.posFrom, to)
        case None => TurnResult(s1, Fail(MarbleNotFound))
        case Some(ms') =>
          var ps := s1.players[p := s1.players[p].(marbles := ms')];
          TurnResult(s1.(players := ResolveCaptures(ps, p, to, 0, 0), idxPlayerActive := NextPlayer(s)), Pass)
  }

  // ---------------------------------------------------------------------
  // Properties of a turn

  /** Captures change nothing but the marbles of other players. */
  lemma CapturesKeepHands(ps: seq<PlayerState>, p: PlayerIndex, to: int)
    requires |ps| == PlayerCount
    ensures HandsMultiset(ResolveCaptures(ps, p, to, 0, 0)) == HandsMultiset(ps)
    ensures HandsSize(ResolveCaptures(ps, p, to, 0, 0)) == HandsSize(ps)
  {
    HandsIgnoreMarbles(ps, ResolveCaptures(ps, p, to, 0, 0));
  }

  /** A turn neither creates nor destroys cards: the cards of draw pile,
      discard pile and hands are the same multiset before and after, on
      every path. */
  lemma TurnConservesCards(s: GameState, action: Option<Action>)
    requires WellFormed(s)
    requires action.Some? ==> action.value.posTo.Some?
    ensures AllCards(PlayTurn(s, action).state) == AllCards(s)
    ensures CardCount(PlayTurn(s, action).state) == CardCount(s)
  {
    if action.None? {
      PassConservesCards(s);
    } else if action.value.card in s.players[s.idxPlayerActive].hand {
      PlayConservesCards(s, action.value);
    }
  }

  /** Playing a held card keeps the cards, whether the move then raises or
      not. */
  lemma PlayConservesCards(s: GameState, a: Action)
    requires WellFormed(s) && a.posTo.Some?
    requires a.card in s.players[s.idxPlayerActive].hand
    ensures AllCards(PlayTurn(s, Some(a)).state) == AllCards(s)
  {
    var p := s.idxPlayerActive;
    var me := s.players[p];
    var hand' := RemoveFirst(me.hand, a.card).value;
    var s1 := s.(players := s.players[p := me.(hand := hand')], discardPile := s.discardPile + [a.card]);
    DiscardConservesCards(s, a.card, hand');
    match MovedMarbles(me.marbles, p, a.posFrom, a.posTo.value)
    case None =>
    case Some(ms') =>
      MoveKeepsCards(s1, p, ms', a.posTo.value, NextPlayer(s));
  }

  /** Moving marbles and capturing leaves every card where it is. */
  lemma MoveKeepsCards(s1: GameState, p: PlayerIndex, ms': seq<Marble>, to: int, next: int)
    requires |s1.players| == PlayerCount
    ensures var ps := ResolveCaptures(s1.players[p := s1.players[p].(marbles := ms')], p, to, 0, 0);
      AllCards(s1.(players := ps, idxPlayerActive := next)) == AllCards(s1)
  {
    var ps := s1.players[p := s1.players[p].(marbles := ms')];
    HandsIgnoreMarbles(s1.players, ps);
    CapturesKeepHands(ps, p, to);
  }

  /** Passing moves the whole hand onto the discard pile. */
  lemma PassConservesCards(s: GameState)
    requires WellFormed(s)
    ensures AllCards(PlayTurn(s, None).state) == AllCards(s)
  {
    var p := s.idxPlayerActive;
    var me := s.players[p];
    var ps' := s.players[p := me.(hand := [])];
    HandsAfterUpdate(s.players, p, []);
    assert HandsMultiset(ps') + multiset(me.hand) == HandsMultiset(s.players);
    assert multiset(s.discardPile + me.hand) == multiset(s.discardPile) + multiset(me.hand);
    MultisetShift(multiset(s.drawPile), multiset(s.discardPile), multiset(me.hand), HandsMultiset(ps'), HandsMultiset(s.players));
  }

  /** Playing a card moves it from the hand onto the discard pile. */
  lemma DiscardConservesCards(s: GameState, c: Card, hand': seq<Card>)
    requires WellFormed(s)
    requires RemoveFirst(s.players[s.idxPlayerActive].hand, c) == Some(hand')
    ensures AllCards(s.(players := s.players[s.idxPlayerActive := s.players[s.idxPlayerActive].(hand := hand')],
                        discardPile := s.discardPile + [c])) == AllCards(s)
  {
    var p := s.idxPlayerActive;
    var me := s.players[p];
    var ps' := s.players[p := me.(hand := hand')];
    HandsAfterUpdate(s.players, p, hand');
    Cancel(HandsMultiset(ps'), multiset(me.hand), HandsMultiset(s.players), multiset(hand'), multiset{c});
    assert multiset(s.discardPile + [c]) == multiset(s.discardPile) + multiset{c};
    MultisetShift(multiset(s.drawPile), multiset(s.discardPile), multiset{c}, HandsMultiset(ps'), HandsMultiset(s.players));
  }

  /** Cancelling the played card: from a + x == b + y and x == y + m follows
      a + m == b. */
  lemma Cancel<T>(a: multiset<T>, x: multiset<T>, b: multiset<T>, y: multiset<T>, m: multiset<T>)
    requires a + x == b + y && x == y + m
    ensures a + m == b
  {
    forall e ensures (a + m)[e] == b[e] {
      assert (a + x)[e] == (b + y)[e];
    }
  }

  /** Moving cards from the hands to the discard pile keeps the union. */
  lemma MultisetShift<T>(d: multiset<T>, x: multiset<T>, m: multiset<T>, h': multiset<T>, h: multiset<T>)
    requires h' + m == h
    ensures d + (x + m) + h' == d + x + h
  {
    forall e ensures (d + (x + m) + h')[e] == (d + x + h)[e] {
      assert (h' + m)[e] == h[e];
    }
  }

  // ---------------------------------------------------------------------
  // Properties of the captures

  /** Every kennel slot of player a is taken, except possibly the cell `to`. */
  predicate KennelFull(ps: seq<PlayerState>, a: PlayerIndex, to: int)
  {
    forall k :: 0 <= k < 4 ==> Kennel(a)[k] == to || !PositionFree(ps, Kennel(a)[k])
  }

  /** Marble b of player a comes before marble j of player i in visiting order. */
  predicate Before(a: int, b: int, i: int, j: int)
  {
    a < i || (a == i && b < j)
  }

  /** No marble other than marble b of player a stands on cell c. */
  predicate OnlyAt(ps: seq<PlayerState>, c: int, a: int, b: int)
  {
    forall a', b' :: 0 <= a' < |ps| && 0 <= b' < |ps[a'].marbles| && ps[a'].marbles[b'].pos == c ==> a' == a && b' == b
  }

  /** Marble b of player a was sent home: it sits unprotected in a's kennel,
      off the cell `to`, on a slot no other marble holds. */
  predicate SentHome(ps: seq<PlayerState>, a: PlayerIndex, b: int, to: int)
  {
    && a < |ps| && 0 <= b < |ps[a].marbles|
    && ps[a].marbles[b].pos in Kennel(a) && !ps[a].marbles[b].isSave
    && ps[a].marbles[b].pos != to && OnlyAt(ps, ps[a].marbles[b].pos, a, b)
  }

  /** A capture only fills cells: whatever cell other than `to` was taken
      before is taken after. */
  lemma CaptureKeepsOccupied(ps: seq<PlayerState>, i: PlayerIndex, j: int, to: int, c: int)
    requires i < |ps| && 0 <= j < |ps[i].marbles| && ps[i].marbles[j].pos == to
    requires c != to && !PositionFree(ps, c)
    ensures !PositionFree(Capture(ps, i, j), c)
  {
    var a, b :| 0 <= a < |ps| && 0 <= b < |ps[a].marbles| && ps[a].marbles[b].pos == c;
    assert Capture(ps, i, j)[a].marbles[b] == ps[a].marbles[b];
  }

  /** What the capture loops do to each marble: one of another player that
      stands on `to` and is not yet visited ends unprotected in its owner's
      kennel, on a slot of its own, or stays where it is when that kennel is full; every other
      marble keeps its place; and no cell other than `to` is vacated. */
  lemma {:induction false} CapturesEffect(ps: seq<PlayerState>, p: PlayerIndex, to: int, i: nat, j: nat)
    requires |ps| == PlayerCount
    ensures forall a, b :: 0 <= a < |ps| && 0 <= b < |ps[a].marbles| && (Before(a, b, i, j) || ps[a].marbles[b].pos != to || a == p) ==>
      ResolveCaptures(ps, p, to, i, j)[a].marbles[b] == ps[a].marbles[b]
    ensures forall a: PlayerIndex, b :: 0 <= b < |ps[a].marbles| && !Before(a, b, i, j) && ps[a].marbles[b].pos == to && a != p ==>
      var m := ResolveCaptures(ps, p, to, i, j)[a].marbles[b];
      SentHome(ResolveCaptures(ps, p, to, i, j), a, b, to) || (m == ps[a].marbles[b] && KennelFull(ResolveCaptures(ps, p, to, i, j), a, to))
    ensures forall c :: c != to && !PositionFree(ps, c) ==> !PositionFree(ResolveCaptures(ps, p, to, i, j), c)
    decreases |ps| - i, CaptureMeasure(ps, i, j)
  {
    var r := ResolveCaptures(ps, p, to, i, j);
    if i >= |ps| {
    } else if i == p || j >= |ps[i].marbles| {
      CapturesEffect(ps, p, to, i + 1, 0);
    } else if ps[i].marbles[j].pos == to {
      var ps' := Capture(ps, i, j);
      assert r == ResolveCaptures(ps', p, to, i, j + 1);
      CapturesEffect(ps', p, to, i, j + 1);
      CaptureStep(ps, p, to, i, j);
    } else {
      CapturesEffect(ps, p, to, i, j + 1);
    }
  }

  /** The step of CapturesEffect that captures marble j of player i. */
  lemma CaptureStep(ps: seq<PlayerState>, p: PlayerIndex, to: int, i: PlayerIndex, j: nat)
    requires |ps| == PlayerCount && i != p && j < |ps[i].marbles| && ps[i].marbles[j].pos == to
    requires var ps' := Capture(ps, i, j); var r := ResolveCaptures(ps', p, to, i, j + 1);
      && (forall a, b :: 0 <= a < |ps'| && 0 <= b < |ps'[a].marbles| && (Before(a, b, i, j + 1) || ps'[a].marbles[b].pos != to || a == p) ==>
           r[a].marbles[b] == ps'[a].marbles[b])
      && (forall a: PlayerIndex, b :: 0 <= b < |ps'[a].marbles| && !Before(a, b, i, j + 1) && ps'[a].marbles[b].pos == to && a != p ==>
           SentHome(r, a, b, to) || (r[a].marbles[b] == ps'[a].marbles[b] && KennelFull(r, a, to)))
      && (forall c :: c != to && !PositionFree(ps', c) ==> !PositionFree(r, c))
    ensures var r := ResolveCaptures(Capture(ps, i, j), p, to, i, j + 1);
      && (forall a, b :: 0 <= a < |ps| && 0 <= b < |ps[a].marbles| && (Before(a, b, i, j) || ps[a].marbles[b].pos != to || a == p) ==>
           r[a].marbles[b] == ps[a].marbles[b])
      && (forall a: PlayerIndex, b :: 0 <= b < |ps[a].marbles| && !Before(a, b, i, j) && ps[a].marbles[b].pos == to && a != p ==>
           SentHome(r, a, b, to) || (r[a].marbles[b] == ps[a].marbles[b] && KennelFull(r, a, to)))
      && (forall c :: c != to && !PositionFree(ps, c) ==> !PositionFree(r, c))
  {
    var ps' := Capture(ps, i, j);
    var r := ResolveCaptures(ps', p, to, i, j + 1);
    CaptureStepKeeps(ps, p, to, i, j, r);
    CaptureStepOccupied(ps, p, to, i, j);
    assert Before(i, j, i, j + 1);
    if FreeKennelSlot(ps, i).Some? {
      var slot := FreeKennelSlot(ps, i).value;
      CaptureAlone(ps, i, j);
      OnlyAtKept(ps', p, to, i, j + 1, i, j, slot);
      CapturedToKennel(ps, i, j, r);
    }
    CaptureStepVisits(ps, p, to, i, j, r);
  }

  /** In CaptureStep, every marble from marble j of player i on that stands
      on `to` is captured or meets a full kennel. */
  lemma CaptureStepVisits(ps: seq<PlayerState>, p: PlayerIndex, to: int, i: PlayerIndex, j: nat, r: seq<PlayerState>)
    requires |ps| == PlayerCount && i != p && j < |ps[i].marbles| && ps[i].marbles[j].pos == to
    requires |r| == |ps| && forall q :: 0 <= q < |ps| ==> |r[q].marbles| == |ps[q].marbles|
    requires var ps' := Capture(ps, i, j);
      && r[i].marbles[j] == ps'[i].marbles[j]
      && (FreeKennelSlot(ps, i).Some? ==> SentHome(r, i, j, to))
      && (forall a: PlayerIndex, b :: 0 <= b < |ps'[a].marbles| && !Before(a, b, i, j + 1) && ps'[a].marbles[b].pos == to && a != p ==>
           SentHome(r, a, b, to) || (r[a].marbles[b] == ps'[a].marbles[b] && KennelFull(r, a, to)))
      && (forall c :: c != to && !PositionFree(ps', c) ==> !PositionFree(r, c))
    ensures forall a: PlayerIndex, b :: 0 <= b < |ps[a].marbles| && !Before(a, b, i, j) && ps[a].marbles[b].pos == to && a != p ==>
      SentHome(r, a, b, to) || (r[a].marbles[b] == ps[a].marbles[b] && KennelFull(r, a, to))
  {
    var ps' := Capture(ps, i, j);
    forall a: PlayerIndex, b | 0 <= b < |ps[a].marbles| && !Before(a, b, i, j) && ps[a].marbles[b].pos == to && a != p
      ensures SentHome(r, a, b, to) || (r[a].marbles[b] == ps[a].marbles[b] && KennelFull(r, a, to))
    {
      if a == i && b == j {
        if FreeKennelSlot(ps, i).None? {
          CapturedKennelFull(ps, i, j, to, r);
        }
      } else {
        assert ps'[a].marbles[b] == ps[a].marbles[b];
      }
    }
  }

  /** In CaptureStep, the marbles already visited or not on `to` keep their
      places. */
  lemma CaptureStepKeeps(ps: seq<PlayerState>, p: PlayerIndex, to: int, i: PlayerIndex, j: nat, r: seq<PlayerState>)
    requires |ps| == PlayerCount && i != p && j < |ps[i].marbles| && ps[i].marbles[j].pos == to
    requires |r| == |ps| && forall q :: 0 <= q < |ps| ==> |r[q].marbles| == |ps[q].marbles|
    requires var ps' := Capture(ps, i, j);
      forall a, b :: 0 <= a < |ps'| && 0 <= b < |ps'[a].marbles| && (Before(a, b, i, j + 1) || ps'[a].marbles[b].pos != to || a == p) ==>
        r[a].marbles[b] == ps'[a].marbles[b]
    ensures forall a, b :: 0 <= a < |ps| && 0 <= b < |ps[a].marbles| && (Before(a, b, i, j) || ps[a].marbles[b].pos != to || a == p) ==>
      r[a].marbles[b] == ps[a].marbles[b]
  {
    var ps' := Capture(ps, i, j);
    forall a, b | 0 <= a < |ps| && 0 <= b < |ps[a].marbles| && (Before(a, b, i, j) || ps[a].marbles[b].pos != to || a == p)
      ensures ps'[a].marbles[b] == ps[a].marbles[b]
      ensures Before(a, b, i, j + 1) || ps'[a].marbles[b].pos != to || a == p
    {
      assert a != i || b != j;
    }
  }

  /** In CaptureStep, no cell other than `to` is vacated. */
  lemma CaptureStepOccupied(ps: seq<PlayerState>, p: PlayerIndex, to: int, i: PlayerIndex, j: nat)
    requires |ps| == PlayerCount && i != p && j < |ps[i].marbles| && ps[i].marbles[j].pos == to
    requires var ps' := Capture(ps, i, j); var r := ResolveCaptures(ps', p, to, i, j + 1);
      forall c :: c != to && !PositionFree(ps', c) ==> !PositionFree(r, c)
    ensures var r := ResolveCaptures(Capture(ps, i, j), p, to, i, j + 1);
      forall c :: c != to && !PositionFree(ps, c) ==> !PositionFree(r, c)
  {
    forall c | c != to && !PositionFree(ps, c) ensures !PositionFree(Capture(ps, i, j), c) {
      CaptureKeepsOccupied(ps, i, j, to, c);
    }
  }

  /** With a free kennel slot, the captured marble sits there unprotected. */
  lemma CapturedToKennel(ps: seq<PlayerState>, i: PlayerIndex, j: nat, r: seq<PlayerState>)
    requires i < |ps| && j < |ps[i].marbles| && FreeKennelSlot(ps, i).Some?
    requires i < |r| && j < |r[i].marbles| && r[i].marbles[j] == Capture(ps, i, j)[i].marbles[j]
    ensures r[i].marbles[j].pos in Kennel(i) && !r[i].marbles[j].isSave
  {
    assert r[i].marbles[j] == Marble(FreeKennelSlot(ps, i).value, false);
  }

  /** A capture with a free slot puts the captured marble on that slot,
      which no other marble holds and which is not the cell it left. */
  lemma CaptureAlone(ps: seq<PlayerState>, i: PlayerIndex, j: int)
    requires i < |ps| && 0 <= j < |ps[i].marbles| && FreeKennelSlot(ps, i).Some?
    ensures var slot := FreeKennelSlot(ps, i).value; var r := Capture(ps, i, j);
      r[i].marbles[j].pos == slot && slot != ps[i].marbles[j].pos && OnlyAt(r, slot, i, j)
  {
    var slot := FreeKennelSlot(ps, i).value;
    var r := Capture(ps, i, j);
    forall a, b | 0 <= a < |r| && 0 <= b < |r[a].marbles| && (a != i || b != j)
      ensures r[a].marbles[b].pos != slot
    {
      assert r[a].marbles[b] == ps[a].marbles[b];
    }
  }

  /** A capture of a marble off cell c leaves the one marble on c alone there. */
  lemma CaptureKeepsAlone(ps: seq<PlayerState>, i: PlayerIndex, j: int, a: int, b: int, c: int)
    requires i < |ps| && 0 <= j < |ps[i].marbles| && ps[i].marbles[j].pos != c
    requires 0 <= a < |ps| && 0 <= b < |ps[a].marbles| && ps[a].marbles[b].pos == c && OnlyAt(ps, c, a, b)
    ensures Capture(ps, i, j)[a].marbles[b].pos == c && OnlyAt(Capture(ps, i, j), c, a, b)
  {
    var r := Capture(ps, i, j);
    assert r[a].marbles[b] == ps[a].marbles[b];
    forall a', b' | 0 <= a' < |r| && 0 <= b' < |r[a'].marbles| && (a' != a || b' != b)
      ensures r[a'].marbles[b'].pos != c
    {
      if a' == i && b' == j && FreeKennelSlot(ps, i).Some? {
        assert r[a'].marbles[b'].pos == FreeKennelSlot(ps, i).value;
        assert PositionFree(ps, FreeKennelSlot(ps, i).value);
      } else {
        assert r[a'].marbles[b'] == ps[a'].marbles[b'];
      }
    }
  }

  /** The remaining captures leave a marble that stands alone on a cell other
      than `to` alone there. */
  lemma {:induction false} OnlyAtKept(ps: seq<PlayerState>, p: PlayerIndex, to: int, i: nat, j: nat, a: int, b: int, c: int)
    requires |ps| == PlayerCount && c != to
    requires 0 <= a < |ps| && 0 <= b < |ps[a].marbles| && ps[a].marbles[b].pos == c && OnlyAt(ps, c, a, b)
    ensures var r := ResolveCaptures(ps, p, to, i, j); r[a].marbles[b].pos == c && OnlyAt(r, c, a, b)
    decreases |ps| - i, CaptureMeasure(ps, i, j)
  {
    if i >= |ps| {
    } else if i == p || j >= |ps[i].marbles| {
      OnlyAtKept(ps, p, to, i + 1, 0, a, b, c);
    } else if ps[i].marbles[j].pos == to {
      var ps' := Capture(ps, i, j);
      assert ResolveCaptures(ps, p, to, i, j) == ResolveCaptures(ps', p, to, i, j + 1);
      CaptureKeepsAlone(ps, i, j, a, b, c);
      OnlyAtKept(ps', p, to, i, j + 1, a, b, c);
    } else {
      OnlyAtKept(ps, p, to, i, j + 1, a, b, c);
    }
  }

  /** Without a free kennel slot, the kennel stays full. */
  lemma CapturedKennelFull(ps: seq<PlayerState>, i: PlayerIndex, j: nat, to: int, r: seq<PlayerState>)
    requires i < |ps| && j < |ps[i].marbles| && FreeKennelSlot(ps, i).None?
    requires forall c :: c != to && !PositionFree(Capture(ps, i, j), c) ==> !PositionFree(r, c)
    ensures KennelFull(r, i, to)
  {
    assert Capture(ps, i, j) == ps;
    forall k | 0 <= k < 4 ensures Kennel(i)[k] == to || !PositionFree(r, Kennel(i)[k]) {
      if Kennel(i)[k] != to {
        assert !PositionFree(ps, Kennel(i)[k]);
      }
    }
  }

  /** The active player's marbles after a move: the first marble on the
      start cell of the move is now on its destination, protected after
      leaving the kennel for cell 0 and otherwise exactly in its own safe
      space; the other marbles are untouched. Without such a marble the
      kennel exit does nothing and any other move raises. */
  lemma MovedMarblesEffect(ms: seq<Marble>, p: PlayerIndex, from: Option<int>, to: int)
    ensures var exit := from.Some? && from.value in Kennel(p) && to == 0;
      var found := if from.Some? then FindMarble(ms, from.value) else None;
      && (MovedMarbles(ms, p, from, to).None? <==> !exit && found.None?)
      && (exit && found.None? ==> MovedMarbles(ms, p, from, to) == Some(ms))
      && (found.Some? ==>
           var k := found.value;
           && from.Some? && ms[k].pos == from.value
           && (forall q :: 0 <= q < k ==> ms[q].pos != from.value)
           && MovedMarbles(ms, p, from, to).value == ms[k := Marble(to, exit || to in SafeSpaces(p))])
  {
  }

  // ---------------------------------------------------------------------
  // The turn as a whole

  /** Passing (no action): the active hand goes onto the discard pile, the
      turn moves on, nothing else changes. */
  lemma PassEffect(s: GameState)
    requires WellFormed(s)
    ensures var r := PlayTurn(s, None);
      && r.outcome == Pass
      && r.state.players[s.idxPlayerActive].hand == []
      && r.state.players[s.idxPlayerActive].marbles == s.players[s.idxPlayerActive].marbles
      && r.state.discardPile == s.discardPile + s.players[s.idxPlayerActive].hand
      && r.state.drawPile == s.drawPile
      && r.state.idxPlayerActive == (s.idxPlayerActive + 1) % PlayerCount
      && forall q :: 0 <= q < PlayerCount && q != s.idxPlayerActive ==> r.state.players[q] == s.players[q]
  {
  }

  /** Playing an action: a card the player does not hold raises and changes
      nothing; otherwise the first copy of the card goes onto the discard
      pile, then the marble moves (or the move raises, leaving the card
      played), the other players' marbles on the destination are captured
      and the turn moves on. */
  lemma PlayEffect(s: GameState, a: Action)
    requires WellFormed(s) && a.posTo.Some?
    ensures var r := PlayTurn(s, Some(a)); var p := s.idxPlayerActive; var me := s.players[p];
      && (r.outcome == Fail(CardNotInHand) <==> a.card !in me.hand)
      && (a.card !in me.hand ==> r.state == s)
      && (a.card in me.hand ==>
           && r.state.discardPile == s.discardPile + [a.card]
           && r.state.players[p].hand == RemoveFirst(me.hand, a.card).value
           && r.state.drawPile == s.drawPile
           && (r.outcome == Fail(MarbleNotFound) <==> MovedMarbles(me.marbles, p, a.posFrom, a.posTo.value).None?)
           && (var s1 := s.(players := s.players[p := me.(hand := RemoveFirst(me.hand, a.card).value)],
                            discardPile := s.discardPile + [a.card]);
               var moved := MovedMarbles(me.marbles, p, a.posFrom, a.posTo.value);
               && (moved.None? ==> r == TurnResult(s1, Fail(MarbleNotFound)))
               && (moved.Some? ==> r == TurnResult(s1.(players := ResolveCaptures(s1.players[p := s1.players[p].(marbles := moved.value)], p, a.posTo.value, 0, 0),
                                                       idxPlayerActive := (p + 1) % PlayerCount), Pass)))
           && (r.outcome == Pass ==>
                && r.state.players[p].marbles == MovedMarbles(me.marbles, p, a.posFrom, a.posTo.value).value
                && r.state.idxPlayerActive == (p + 1) % PlayerCount
                && r.state.players == ResolveCaptures(
                     s.players[p := me.(hand := RemoveFirst(me.hand, a.card).value,
                                        marbles := MovedMarbles(me.marbles, p, a.posFrom, a.posTo.value).value)],
                     p, a.posTo.value, 0, 0)))
  {
    var p := s.idxPlayerActive;
    var me := s.players[p];
    if a.card in me.hand {
      var hand' := RemoveFirst(me.hand, a.card).value;
      var s1 := s.(players := s.players[p := me.(hand := hand')], discardPile := s.discardPile + [a.card]);
      match MovedMarbles(me.marbles, p, a.posFrom, a.posTo.value)
      case None =>
      case Some(ms') =>
        assert s1.players[p := s1.players[p].(marbles := ms')] == s.players[p := me.(hand := hand', marbles := ms')];
    }
  }
}
