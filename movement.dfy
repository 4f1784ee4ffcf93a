/** Destination arithmetic of `_calculate_new_position` (dog.py:242-278):
    movement inside the own safe space, exact-arrival entry into it, and
    blocked movement along the track, all against a set of occupied cells. */
module Movement {
  import opened Wrappers
  import opened Board

  /** The blocking scan inside a safe space (dog.py:259-261): none of the
      cells lo, lo+1, ..., hi-1 is occupied. */
  function SafePathClear(lo: int, hi: int, blocked: set<int>): (r: bool)
    decreases hi - lo
    ensures r <==> forall q :: lo <= q < hi ==> q !in blocked
  {
    if lo >= hi then true
    else lo !in blocked && SafePathClear(lo + 1, hi, blocked)
  }

  /** The blocking scan along the track (dog.py:274-276): none of the cells
      lo, lo+1, ..., hi-1, taken modulo the board size, is occupied. */
  function TrackPathClear(lo: int, hi: int, blocked: set<int>): (r: bool)
    decreases hi - lo
    ensures r <==> forall q :: lo <= q < hi ==> q % BoardSize !in blocked
  {
    if lo >= hi then true
    else lo % BoardSize !in blocked && TrackPathClear(lo + 1, hi, blocked)
  }

  /** The test of dog.py:268: the move from `cur` to the wrapped cell `dest`
      reaches or passes the cell `entry`. */
  predicate ReachesEntry(cur: int, dest: int, entry: int)
  {
    (cur < entry <= dest) || (dest < cur && entry <= dest + BoardSize)
  }

  /** Where a marble of player p at `cur` ends up after `value` steps, or
      None when the move is not allowed; `blocked` is the set of occupied
      cells. */
  function NewPosition(cur: int, value: int, p: PlayerIndex, blocked: set<int>): (r: Option<int>)
    // inside the own safe space: the slot `value` further on, if it exists
    // and neither it nor any slot passed on the way is occupied
    ensures cur in SafeSpaces(p) ==>
      r == (if cur + value <= LastSafe(p) && (forall q :: cur < q <= cur + value ==> q !in blocked)
            then Some(cur + value) else None)
    // reaching or passing the own entry: only an exact arrival is allowed,
    // and it is not checked against occupied cells
    ensures cur !in SafeSpaces(p) && ReachesEntry(cur, (cur + value) % BoardSize, Entry(p)) ==>
      r == (if cur + value == Entry(p) then Some(Entry(p)) else None)
    // along the track: the wrapped destination, if no cell passed or
    // landed on is occupied
    ensures cur !in SafeSpaces(p) && !ReachesEntry(cur, (cur + value) % BoardSize, Entry(p)) ==>
      r == (if forall q :: cur < q <= cur + value ==> q % BoardSize !in blocked
            then Some((cur + value) % BoardSize) else None)
  {
    if cur in SafeSpaces(p) then
      var newPos := cur + value;
      if newPos > LastSafe(p) then None
      else if !SafePathClear(cur + 1, newPos + 1, blocked) then None
      else Some(newPos)
    else
      var newPos := (cur + value) % BoardSize;
      if ReachesEntry(cur, newPos, Entry(p)) then
        if cur + value == Entry(p) then Some(Entry(p)) else None
      else if !TrackPathClear(cur + 1, cur + value + 1, blocked) then None
      else Some(newPos)
  }

  /** A forward move that does not end exactly on the own entry never passes
      or lands on an occupied cell. */
  lemma ForwardMoveUnobstructed(cur: int, value: int, p: PlayerIndex, blocked: set<int>, k: int)
    requires value > 0 && 1 <= k <= value
    requires NewPosition(cur, value, p, blocked).Some?
    requires cur + value != Entry(p)
    ensures cur !in SafeSpaces(p) ==> (cur + k) % BoardSize !in blocked
    ensures cur in SafeSpaces(p) ==> cur + k !in blocked
    ensures NewPosition(cur, value, p, blocked).value !in blocked
  {
    var r := NewPosition(cur, value, p, blocked).value;
    if cur in SafeSpaces(p) {
      assert r == cur + value;
    } else {
      assert !ReachesEntry(cur, (cur + value) % BoardSize, Entry(p));
      assert r == (cur + value) % BoardSize;
    }
  }

  /** The only way into the own safe space from outside it is an exact
      arrival on its entry slot. */
  lemma SafeSpaceOnlyByExactArrival(cur: int, value: int, p: PlayerIndex, blocked: set<int>)
    requires cur !in SafeSpaces(p)
    requires NewPosition(cur, value, p, blocked).Some?
    requires NewPosition(cur, value, p, blocked).value in SafeSpaces(p)
    ensures cur + value == Entry(p) && NewPosition(cur, value, p, blocked).value == Entry(p)
  {
    InSafeSpace(p, NewPosition(cur, value, p, blocked).value);
    InSafeSpace(p, cur);
    var dest := (cur + value) % BoardSize;
    if !ReachesEntry(cur, dest, Entry(p)) {
      assert false;
    }
  }

  /** Inside the safe space a forward move stays inside it and advances. */
  lemma SafeSpaceMovesForward(cur: int, value: int, p: PlayerIndex, blocked: set<int>)
    requires cur in SafeSpaces(p) && value > 0
    requires NewPosition(cur, value, p, blocked).Some?
    ensures NewPosition(cur, value, p, blocked).value in SafeSpaces(p)
    ensures NewPosition(cur, value, p, blocked).value > cur
  {
    InSafeSpace(p, cur);
    InSafeSpace(p, cur + value);
  }

  /** A move by a card value (at least -4) from a board cell stays on the board. */
  lemma MoveStaysOnBoard(cur: int, value: int, p: PlayerIndex, blocked: set<int>)
    requires 0 <= cur < BoardSize && value >= -4
    requires NewPosition(cur, value, p, blocked).Some?
    ensures 0 <= NewPosition(cur, value, p, blocked).value < BoardSize
  {
    InSafeSpace(p, cur);
  }

  /** A move by zero (the Jack's value) leaves a marble where it is. */
  lemma ZeroMoveStays(cur: int, p: PlayerIndex, blocked: set<int>)
    requires 0 <= cur < BoardSize
    ensures NewPosition(cur, 0, p, blocked) == Some(cur)
  {
  }

  /** Entering the safe space ignores occupation: a marble below the entry
      slot that lands on it exactly gets there, whichever cells are
      occupied, the entry slot and the cells passed included. */
  lemma EntryIgnoresOccupation(cur: int, value: int, p: PlayerIndex, blocked: set<int>)
    requires 0 <= cur < Entry(p) && cur !in SafeSpaces(p) && cur + value == Entry(p)
    ensures NewPosition(cur, value, p, blocked) == Some(Entry(p))
  {
    Layout(p);
  }

  /** Passing the entry fails: a marble below its entry slot cannot move
      beyond it by less than a full lap, whether the move would end on the
      track or wrap around the board. */
  lemma PassingEntryFails(cur: int, value: int, p: PlayerIndex, blocked: set<int>)
    requires 0 <= cur < Entry(p) && cur !in SafeSpaces(p)
    requires Entry(p) < cur + value && value < BoardSize
    ensures NewPosition(cur, value, p, blocked) == None
  {
    Layout(p);
    assert ReachesEntry(cur, (cur + value) % BoardSize, Entry(p));
  }
}
