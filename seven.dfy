/** The split moves of the seven card (dog.py:311-374): seven single steps
    are distributed over the active player's marbles outside the kennel by
    a depth-first search, and every leg of every split found becomes one
    action. */
module SevenSplit {
  import opened Wrappers
  import opened Board
  import opened Cards
  import opened DogState
  import opened Movement
  import opened Seqs

  /** One leg of a split: marble `marble` (an index into the marbles outside
      the kennel) moves `steps` cells. */
  datatype Leg = Leg(marble: int, steps: int)

  /** The cells of the marbles of player p that are not in p's kennel, in
      marble order (dog.py:316-318). */
  function OutsideKennel(ms: seq<Marble>, p: PlayerIndex): (r: seq<int>)
    ensures |r| <= |ms|
    ensures forall x :: x in r <==> x !in Kennel(p) && exists j :: 0 <= j < |ms| && ms[j].pos == x
  {
    if ms == [] then []
    else
      var front := OutsideKennel(ms[..|ms| - 1], p);
      var last := ms[|ms| - 1];
      assert forall j :: 0 <= j < |ms| - 1 ==> ms[..|ms| - 1][j] == ms[j];
      front + (if last.pos in Kennel(p) then [] else [last.pos])
  }

  function Sum(s: seq<int>): int
  {
    if s == [] then 0 else Sum(s[..|s| - 1]) + s[|s| - 1]
  }

  function SumLegs(legs: seq<Leg>): int
  {
    if legs == [] then 0 else SumLegs(legs[..|legs| - 1]) + legs[|legs| - 1].steps
  }

  function Zeros(n: nat): (r: seq<int>)
    ensures |r| == n && forall k :: 0 <= k < n ==> r[k] == 0
  {
    seq(n, _ => 0)
  }

  /** The split recorded for a step vector: the marbles that move, with
      their step counts, in marble order (dog.py:339). */
  function SplitOf(moves: seq<int>): seq<Leg>
  {
    if moves == [] then []
    else SplitOf(moves[..|moves| - 1]) + (if moves[|moves| - 1] > 0 then [Leg(|moves| - 1, moves[|moves| - 1])] else [])
  }

  /** A split lists exactly the marbles given steps, each once with its
      count, in marble order. */
  lemma {:induction false} SplitOfFacts(moves: seq<int>)
    ensures forall l :: l in SplitOf(moves) ==> 0 <= l.marble < |moves| && l.steps == moves[l.marble] && l.steps > 0
    ensures forall k :: 0 <= k < |moves| && moves[k] > 0 ==> Leg(k, moves[k]) in SplitOf(moves)
    ensures forall a, b :: 0 <= a < b < |SplitOf(moves)| ==> SplitOf(moves)[a].marble < SplitOf(moves)[b].marble
  {
    if moves != [] {
      var n := |moves| - 1;
      var front := SplitOf(moves[..n]);
      SplitOfFacts(moves[..n]);
      assert forall l :: l in front ==> l.marble < n;
      assert SplitOf(moves) == front + (if moves[n] > 0 then [Leg(n, moves[n])] else []);
    }
  }

  /** The leaf check of the search (dog.py:327-337): every marble that moves
      can move its full count. */
  predicate LeafValid(pos: seq<int>, p: PlayerIndex, blocked: set<int>, moves: seq<int>)
    requires |moves| == |pos|
  {
    forall k :: 0 <= k < |moves| && moves[k] > 0 ==> NewPosition(pos[k], moves[k], p, blocked).Some?
  }

  /** The results `dfs(remaining, moves, ...)` appends, in order. */
  function Splits(pos: seq<int>, p: PlayerIndex, blocked: set<int>, remaining: nat, moves: seq<int>): seq<seq<Leg>>
    requires |moves| == |pos|
    decreases remaining, |moves| + 2
  {
    if remaining == 0 then
      if LeafValid(pos, p, blocked, moves) then [SplitOf(moves)] else []
    else SplitsFrom(pos, p, blocked, remaining, moves, 0)
  }

  /** The results of the loop of dog.py:343-354, from marble i onwards. */
  function SplitsFrom(pos: seq<int>, p: PlayerIndex, blocked: set<int>, remaining: nat, moves: seq<int>, i: nat): seq<seq<Leg>>
    requires |moves| == |pos| && 0 < remaining && i <= |moves|
    decreases remaining, |moves| - i + 1
  {
    if i == |moves| then []
    else Branch(pos, p, blocked, remaining, moves, i) + SplitsFrom(pos, p, blocked, remaining, moves, i + 1)
  }

  /** The results of one iteration of that loop: one more step for marble
      i, searched further only when that marble can then still move its
      whole count. */
  function Branch(pos: seq<int>, p: PlayerIndex, blocked: set<int>, remaining: nat, moves: seq<int>, i: nat): seq<seq<Leg>>
    requires |moves| == |pos| && 0 < remaining && i < |moves|
    decreases remaining, 0
  {
    if NewPosition(pos[i], moves[i] + 1, p, blocked).Some? then Splits(pos, p, blocked, remaining - 1, moves[i := moves[i] + 1]) else []
  }

  /** `final` is reachable from `moves` by single steps each of which the
      search accepts: every intermediate count of every marble is a valid
      move for it. */
  predicate Reaches(pos: seq<int>, p: PlayerIndex, blocked: set<int>, moves: seq<int>, final: seq<int>)
  {
    && |moves| == |pos| && |final| == |moves|
    && forall k :: 0 <= k < |moves| ==>
         && moves[k] <= final[k]
         && forall v :: moves[k] < v <= final[k] ==> NewPosition(pos[k], v, p, blocked).Some?
  }

  lemma {:induction false} SumUpdate(s: seq<int>, i: int, d: int)
    requires 0 <= i < |s|
    ensures Sum(s[i := s[i] + d]) == Sum(s) + d
  {
    var n := |s| - 1;
    assert s[i := s[i] + d][..n] == if i < n then s[..n][i := s[i] + d] else s[..n];
    if i < n {
      SumUpdate(s[..n], i, d);
    }
  }

  lemma {:induction false} SumZeros(n: nat)
    ensures Sum(Zeros(n)) == 0
  {
    if n > 0 {
      assert Zeros(n)[..n - 1] == Zeros(n - 1);
      SumZeros(n - 1);
    }
  }

  /** Pointwise larger vectors have a larger sum, and equal sums force
      equal vectors. */
  lemma {:induction false} SumMonotone(a: seq<int>, b: seq<int>)
    requires |a| == |b| && forall k :: 0 <= k < |a| ==> a[k] <= b[k]
    ensures Sum(a) <= Sum(b)
    ensures Sum(a) == Sum(b) ==> a == b
  {
    if a != [] {
      var n := |a| - 1;
      SumMonotone(a[..n], b[..n]);
      if Sum(a) == Sum(b) {
        assert a[..n] == b[..n];
        assert a == a[..n] + [a[n]] && b == b[..n] + [b[n]];
      }
    }
  }

  /** A vector with a larger sum than a pointwise smaller one is larger
      somewhere. */
  lemma {:induction false} FindIncrease(a: seq<int>, b: seq<int>) returns (i: int)
    requires |a| == |b| && forall k :: 0 <= k < |a| ==> a[k] <= b[k]
    requires Sum(a) < Sum(b)
    ensures 0 <= i < |a| && a[i] < b[i]
  {
    var n := |a| - 1;
    if a[n] < b[n] {
      i := n;
    } else {
      i := FindIncrease(a[..n], b[..n]);
    }
  }

  /** For a vector without negative counts, the legs of its split add up to
      its sum. */
  lemma {:induction false} SplitOfSum(moves: seq<int>)
    requires forall k :: 0 <= k < |moves| ==> moves[k] >= 0
    ensures SumLegs(SplitOf(moves)) == Sum(moves)
  {
    if moves != [] {
      var n := |moves| - 1;
      var pre := moves[..n];
      assert forall k :: 0 <= k < |pre| ==> pre[k] >= 0;
      SplitOfSum(pre);
      var tail := if moves[n] > 0 then [Leg(n, moves[n])] else [];
      assert SplitOf(moves) == SplitOf(pre) + tail;
      assert Sum(moves) == Sum(pre) + moves[n];
      SumLegsAppend(SplitOf(pre), tail);
      assert SumLegs(tail) == (if moves[n] > 0 then moves[n] else 0) by {
        if moves[n] > 0 {
          assert tail[..0] == [];
        }
      }
    }
  }

  lemma {:induction false} SumLegsAppend(a: seq<Leg>, b: seq<Leg>)
    ensures SumLegs(a + b) == SumLegs(a) + SumLegs(b)
    decreases |b|
  {
    if b == [] {
      assert a + b == a;
    } else {
      var n := |b| - 1;
      assert (a + b)[..|a + b| - 1] == a + b[..n];
      SumLegsAppend(a, b[..n]);
    }
  }

  /** Soundness of the search: every split it records is the split of a
      vector reached by accepted single steps, adding `remaining` steps in
      total, and passing the leaf check. */
  lemma {:induction false} SplitsSound(pos: seq<int>, p: PlayerIndex, blocked: set<int>, remaining: nat, moves: seq<int>, s: seq<Leg>)
    returns (final: seq<int>)
    requires |moves| == |pos|
    requires s in Splits(pos, p, blocked, remaining, moves)
    ensures Reaches(pos, p, blocked, moves, final)
    ensures Sum(final) == Sum(moves) + remaining
    ensures LeafValid(pos, p, blocked, final) && s == SplitOf(final)
    decreases remaining, |moves| + 1
  {
    if remaining == 0 {
      final := moves;
    } else {
      final := SplitsFromSound(pos, p, blocked, remaining, moves, 0, s);
    }
  }

  lemma {:induction false} SplitsFromSound(pos: seq<int>, p: PlayerIndex, blocked: set<int>, remaining: nat, moves: seq<int>, i: nat, s: seq<Leg>)
    returns (final: seq<int>)
    requires |moves| == |pos| && 0 < remaining && i <= |moves|
    requires s in SplitsFrom(pos, p, blocked, remaining, moves, i)
    ensures Reaches(pos, p, blocked, moves, final)
    ensures Sum(final) == Sum(moves) + remaining
    ensures LeafValid(pos, p, blocked, final) && s == SplitOf(final)
    decreases remaining, |moves| - i
  {
    assert i < |moves|;
    var here := Branch(pos, p, blocked, remaining, moves, i);
    assert SplitsFrom(pos, p, blocked, remaining, moves, i) == here + SplitsFrom(pos, p, blocked, remaining, moves, i + 1);
    if s in here {
      final := StepSound(pos, p, blocked, remaining, moves, i, s);
    } else {
      final := SplitsFromSound(pos, p, blocked, remaining, moves, i + 1, s);
    }
  }

  /** The branch of SplitsFromSound that takes the extra step for marble i. */
  lemma {:induction false} StepSound(pos: seq<int>, p: PlayerIndex, blocked: set<int>, remaining: nat, moves: seq<int>, i: nat, s: seq<Leg>)
    returns (final: seq<int>)
    requires |moves| == |pos| && 0 < remaining && i < |moves|
    requires NewPosition(pos[i], moves[i] + 1, p, blocked).Some?
    requires s in Splits(pos, p, blocked, remaining - 1, moves[i := moves[i] + 1])
    ensures Reaches(pos, p, blocked, moves, final)
    ensures Sum(final) == Sum(moves) + remaining
    ensures LeafValid(pos, p, blocked, final) && s == SplitOf(final)
    decreases remaining, 0
  {
    final := SplitsSound(pos, p, blocked, remaining - 1, moves[i := moves[i] + 1], s);
    SumUpdate(moves, i, 1);
    ReachesStep(pos, p, blocked, moves, i, final);
  }

  /** One accepted step in front of a reachable vector keeps it reachable. */
  lemma ReachesStep(pos: seq<int>, p: PlayerIndex, blocked: set<int>, moves: seq<int>, i: int, final: seq<int>)
    requires 0 <= i < |moves| == |pos|
    requires NewPosition(pos[i], moves[i] + 1, p, blocked).Some?
    requires Reaches(pos, p, blocked, moves[i := moves[i] + 1], final)
    ensures Reaches(pos, p, blocked, moves, final)
  {
    var next := moves[i := moves[i] + 1];
    forall k | 0 <= k < |moves|
      ensures moves[k] <= final[k]
      ensures forall v :: moves[k] < v <= final[k] ==> NewPosition(pos[k], v, p, blocked).Some?
    {
      assert next[k] <= final[k];
    }
  }

  /** Completeness of the search: the split of every vector reachable by
      accepted single steps, adding `remaining` steps and passing the leaf
      check, is recorded. */
  lemma {:induction false} SplitsComplete(pos: seq<int>, p: PlayerIndex, blocked: set<int>, remaining: nat, moves: seq<int>, final: seq<int>)
    requires Reaches(pos, p, blocked, moves, final)
    requires Sum(final) == Sum(moves) + remaining
    requires LeafValid(pos, p, blocked, final)
    ensures SplitOf(final) in Splits(pos, p, blocked, remaining, moves)
    decreases remaining
  {
    SumMonotone(moves, final);
    if remaining == 0 {
      assert final == moves;
    } else {
      var i := FindIncrease(moves, final);
      var next := moves[i := moves[i] + 1];
      ReachesAdvance(pos, p, blocked, moves, i, final);
      SumUpdate(moves, i, 1);
      SplitsComplete(pos, p, blocked, remaining - 1, next, final);
      assert SplitOf(final) in Branch(pos, p, blocked, remaining, moves, i);
      SplitsFromContains(pos, p, blocked, remaining, moves, 0, i);
    }
  }

  /** Taking one step for a marble that has not reached its final count is
      accepted and keeps the final vector reachable. */
  lemma ReachesAdvance(pos: seq<int>, p: PlayerIndex, blocked: set<int>, moves: seq<int>, i: int, final: seq<int>)
    requires Reaches(pos, p, blocked, moves, final)
    requires 0 <= i < |moves| && moves[i] < final[i]
    ensures NewPosition(pos[i], moves[i] + 1, p, blocked).Some?
    ensures Reaches(pos, p, blocked, moves[i := moves[i] + 1], final)
  {
    var next := moves[i := moves[i] + 1];
    forall k | 0 <= k < |next|
      ensures next[k] <= final[k]
      ensures forall v :: next[k] < v <= final[k] ==> NewPosition(pos[k], v, p, blocked).Some?
    {
    }
  }

  /** The loop from marble j on contains the branch of every later marble i
      whose extra step is accepted. */
  lemma {:induction false} SplitsFromContains(pos: seq<int>, p: PlayerIndex, blocked: set<int>, remaining: nat, moves: seq<int>, j: nat, i: nat)
    requires |moves| == |pos| && 0 < remaining && j <= i < |moves|
    ensures forall s :: s in Branch(pos, p, blocked, remaining, moves, i) ==> s in SplitsFrom(pos, p, blocked, remaining, moves, j)
    decreases i - j
  {
    var here := Branch(pos, p, blocked, remaining, moves, j);
    assert SplitsFrom(pos, p, blocked, remaining, moves, j) == here + SplitsFrom(pos, p, blocked, remaining, moves, j + 1);
    if j < i {
      SplitsFromContains(pos, p, blocked, remaining, moves, j + 1, i);
    }
  }

  /** The splits of the seven card: from no steps, seven in total. */
  function SevenSplits(pos: seq<int>, p: PlayerIndex, blocked: set<int>): seq<seq<Leg>>
  {
    Splits(pos, p, blocked, 7, Zeros(|pos|))
  }

  /** A split is recorded for the seven card exactly when it distributes
      seven steps over the marbles so that every marble can move every
      count up to its own: soundness. */
  lemma SevenSplitSound(pos: seq<int>, p: PlayerIndex, blocked: set<int>, s: seq<Leg>) returns (final: seq<int>)
    requires s in SevenSplits(pos, p, blocked)
    ensures |final| == |pos| && Sum(final) == 7 && s == SplitOf(final)
    ensures forall k :: 0 <= k < |pos| ==> final[k] >= 0
    ensures forall k, v :: 0 <= k < |pos| && 1 <= v <= final[k] ==> NewPosition(pos[k], v, p, blocked).Some?
    ensures SumLegs(s) == 7
    ensures forall l :: l in s ==> 0 <= l.marble < |pos| && l.steps >= 1 && NewPosition(pos[l.marble], l.steps, p, blocked).Some?
  {
    SumZeros(|pos|);
    final := SplitsSound(pos, p, blocked, 7, Zeros(|pos|), s);
    SplitOfSum(final);
    SplitOfFacts(final);
  }

  /** ... and completeness. */
  lemma SevenSplitComplete(pos: seq<int>, p: PlayerIndex, blocked: set<int>, final: seq<int>)
    requires |final| == |pos| && Sum(final) == 7
    requires forall k :: 0 <= k < |pos| ==> final[k] >= 0
    requires forall k, v :: 0 <= k < |pos| && 1 <= v <= final[k] ==> NewPosition(pos[k], v, p, blocked).Some?
    ensures SplitOf(final) in SevenSplits(pos, p, blocked)
  {
    SumZeros(|pos|);
    assert Reaches(pos, p, blocked, Zeros(|pos|), final);
    SplitsComplete(pos, p, blocked, 7, Zeros(|pos|), final);
  }

  /** The action made from one leg of a split (dog.py:367-374): the marble
      moves by the leg's step count, if it can. */
  function LegAction(card: Card, pos: seq<int>, p: PlayerIndex, blocked: set<int>, l: Leg): seq<Action>
  {
    if 0 <= l.marble < |pos| && NewPosition(pos[l.marble], l.steps, p, blocked).Some?
    then [Action(card, Some(pos[l.marble]), NewPosition(pos[l.marble], l.steps, p, blocked), None)]
    else []
  }

  /** The actions made from the legs of one split (dog.py:366-374). */
  function SplitActionsOf(card: Card, pos: seq<int>, p: PlayerIndex, blocked: set<int>): seq<Leg> -> seq<Action>
  {
    split => LegActions(card, pos, p, blocked, split)
  }

  /** The actions made from the legs `legs`, leg by leg. */
  function LegActions(card: Card, pos: seq<int>, p: PlayerIndex, blocked: set<int>, legs: seq<Leg>): seq<Action>
  {
    FlatMap(legs, l => LegAction(card, pos, p, blocked, l))
  }

  /** `_handle_seven_card`: no actions without a marble outside the kennel,
      otherwise one action per leg of every split, split by split. */
  function SevenActions(card: Card, ms: seq<Marble>, p: PlayerIndex, blocked: set<int>): seq<Action>
  {
    var outside := OutsideKennel(ms, p);
    if outside == [] then [] else FlatMap(SevenSplits(outside, p, blocked), SplitActionsOf(card, outside, p, blocked))
  }

  /** Without a marble outside the kennel the seven card yields nothing. */
  lemma NoSevenActionsFromKennel(card: Card, ms: seq<Marble>, p: PlayerIndex, blocked: set<int>)
    requires forall j :: 0 <= j < |ms| ==> ms[j].pos in Kennel(p)
    ensures SevenActions(card, ms, p, blocked) == []
  {
    NoneOutsideKennel(ms, p);
  }

  lemma {:induction false} NoneOutsideKennel(ms: seq<Marble>, p: PlayerIndex)
    requires forall j :: 0 <= j < |ms| ==> ms[j].pos in Kennel(p)
    ensures OutsideKennel(ms, p) == []
  {
    if ms != [] {
      NoneOutsideKennel(ms[..|ms| - 1], p);
    }
  }

  /** What an action made from legs says: it plays the card, moves a marble
      from one of the given cells to where that marble gets by a step count
      between one and seven, and swaps no card. */
  predicate SevenMove(card: Card, pos: seq<int>, p: PlayerIndex, blocked: set<int>, a: Action)
  {
    && a.card == card && a.cardSwap == None
    && a.posFrom.Some? && a.posFrom.value in pos
    && exists v :: 1 <= v <= 7 && a.posTo == NewPosition(a.posFrom.value, v, p, blocked) && a.posTo.Some?
  }

  /** Every action of the seven card moves one of the player's marbles
      outside the kennel by between one and seven steps to a cell it can
      reach. */
  lemma SevenActionsSound(card: Card, ms: seq<Marble>, p: PlayerIndex, blocked: set<int>, a: Action)
    requires a in SevenActions(card, ms, p, blocked)
    ensures SevenMove(card, OutsideKennel(ms, p), p, blocked, a)
  {
    var outside := OutsideKennel(ms, p);
    var splits := SevenSplits(outside, p, blocked);
    var k :| 0 <= k < |splits| && a in SplitActionsOf(card, outside, p, blocked)(splits[k]);
    var split := splits[k];
    assert a in LegActions(card, outside, p, blocked, split);
    var final := SevenSplitSound(outside, p, blocked, split);
    LegActionsSound(card, outside, p, blocked, final, a);
  }

  /** An action made from a split of seven steps is a seven move. */
  lemma LegActionsSound(card: Card, pos: seq<int>, p: PlayerIndex, blocked: set<int>, final: seq<int>, a: Action)
    requires |final| == |pos| && Sum(final) == 7
    requires forall k :: 0 <= k < |pos| ==> final[k] >= 0
    requires a in LegActions(card, pos, p, blocked, SplitOf(final))
    ensures SevenMove(card, pos, p, blocked, a)
  {
    var split := SplitOf(final);
    var j :| 0 <= j < |split| && a in LegAction(card, pos, p, blocked, split[j]);
    var l := split[j];
    SplitOfFacts(final);
    assert l in split;
    LegActionShape(card, pos, p, blocked, l, a);
    LegWithinTotal(final, l);
    assert 1 <= l.steps <= 7 && a.posTo == NewPosition(a.posFrom.value, l.steps, p, blocked);
  }

  /** The one action a leg yields moves its marble by the leg's steps. */
  lemma LegActionShape(card: Card, pos: seq<int>, p: PlayerIndex, blocked: set<int>, l: Leg, a: Action)
    requires a in LegAction(card, pos, p, blocked, l)
    ensures 0 <= l.marble < |pos| && NewPosition(pos[l.marble], l.steps, p, blocked).Some?
    ensures a == Action(card, Some(pos[l.marble]), NewPosition(pos[l.marble], l.steps, p, blocked), None)
  {
  }

  /** A leg of a split carries no more steps than the split's total. */
  lemma {:induction false} LegWithinTotal(moves: seq<int>, l: Leg)
    requires forall k :: 0 <= k < |moves| ==> moves[k] >= 0
    requires l in SplitOf(moves)
    ensures l.steps <= Sum(moves)
  {
    var n := |moves| - 1;
    var front := SplitOf(moves[..n]);
    SumMonotone(Zeros(n), moves[..n]);
    SumZeros(n);
    if l in front {
      LegWithinTotal(moves[..n], l);
    }
  }

  /** The search performed in place on the step vector `moves`, appending to
      `results` (dog.py:326-354); the vector is restored on return. */
  method Dfs(pos: seq<int>, p: PlayerIndex, blocked: set<int>, remaining: nat, moves: array<int>, results: seq<seq<Leg>>)
    returns (out: seq<seq<Leg>>)
    requires moves.Length == |pos|
    modifies moves
    ensures moves[..] == old(moves[..])
    ensures out == results + Splits(pos, p, blocked, remaining, old(moves[..]))
    decreases remaining, 1
  {
    ghost var m0 := moves[..];
    if remaining == 0 {
      var valid := LeafCheck(pos, p, blocked, moves);
      out := results;
      if valid {
        var split := CollectSplit(moves);
        out := results + [split];
      }
      return;
    }
    out := results;
    var i := 0;
    while i < moves.Length
      invariant 0 <= i <= moves.Length
      invariant moves[..] == m0
      invariant out + SplitsFrom(pos, p, blocked, remaining, m0, i) == results + Splits(pos, p, blocked, remaining, m0)
    {
      ghost var here := Branch(pos, p, blocked, remaining, m0, i);
      ghost var rest := SplitsFrom(pos, p, blocked, remaining, m0, i + 1);
      assert SplitsFrom(pos, p, blocked, remaining, m0, i) == here + rest;
      ghost var before := out;
      out := DfsStep(pos, p, blocked, remaining, moves, i, out);
      assert out + rest == before + (here + rest);
      i := i + 1;
    }
  }

  /** One iteration of the loop of dog.py:343-354: the tentative step for
      marble i, the recursive search when it is accepted, and the undo. */
  method DfsStep(pos: seq<int>, p: PlayerIndex, blocked: set<int>, remaining: nat, moves: array<int>, i: int, results: seq<seq<Leg>>)
    returns (out: seq<seq<Leg>>)
    requires moves.Length == |pos| && 0 < remaining && 0 <= i < moves.Length
    modifies moves
    ensures moves[..] == old(moves[..])
    ensures out == results + Branch(pos, p, blocked, remaining, old(moves[..]), i)
    decreases remaining, 0
  {
    ghost var m0 := moves[..];
    ghost var next := m0[i := m0[i] + 1];
    moves[i] := moves[i] + 1;
    assert moves[..] == next;
    out := results;
    if NewPosition(pos[i], moves[i], p, blocked).Some? {
      out := Dfs(pos, p, blocked, remaining - 1, moves, results);
    }
    moves[i] := moves[i] - 1;
    assert moves[..] == m0;
  }

  /** The validity loop of dog.py:327-333: every marble given steps can move
      by its whole count. */
  method LeafCheck(pos: seq<int>, p: PlayerIndex, blocked: set<int>, moves: array<int>) returns (valid: bool)
    requires moves.Length == |pos|
    ensures valid == LeafValid(pos, p, blocked, moves[..])
  {
    valid := true;
    var i := 0;
    while i < moves.Length
      invariant 0 <= i <= moves.Length
      invariant valid <==> forall k :: 0 <= k < i && moves[k] > 0 ==> NewPosition(pos[k], moves[k], p, blocked).Some?
    {
      if moves[i] > 0 && NewPosition(pos[i], moves[i], p, blocked).None? {
        return false;
      }
      i := i + 1;
    }
  }

  /** The list comprehension of dog.py:339. */
  method CollectSplit(moves: array<int>) returns (split: seq<Leg>)
    ensures split == SplitOf(moves[..])
  {
    split := [];
    var i := 0;
    while i < moves.Length
      invariant 0 <= i <= moves.Length
      invariant split == SplitOf(moves[..i])
    {
      assert moves[..i + 1][..i] == moves[..i];
      if moves[i] > 0 {
        split := split + [Leg(i, moves[i])];
      }
      i := i + 1;
    }
    assert moves[..moves.Length] == moves[..];
  }
}
