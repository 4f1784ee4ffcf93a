/** The fixed board topology of the Dog game (dog.py:98-109, 249, 392-397):
    a circular track addressed modulo 96, and per player four kennel slots,
    four safe-space slots and one start cell. */
module Board {

  /** Number of seats; the engine is written for exactly four players. */
  const PlayerCount: int := 4

  /** The modulus of all track arithmetic. */
  const BoardSize: int := 96

  type PlayerIndex = p: int | 0 <= p < 4

  /** The four kennel slots of a player, in the order in which captured
      marbles are sent back to them. */
  function Kennel(p: PlayerIndex): seq<int>
  {
    if p == 0 then [64, 65, 66, 67]
    else if p == 1 then [72, 73, 74, 75]
    else if p == 2 then [80, 81, 82, 83]
    else [88, 89, 90, 91]
  }

  /** The four safe-space slots of a player, entry first. */
  function SafeSpaces(p: PlayerIndex): seq<int>
  {
    if p == 0 then [68, 69, 70, 71]
    else if p == 1 then [76, 77, 78, 79]
    else if p == 2 then [84, 85, 86, 87]
    else [92, 93, 94, 95]
  }

  /** The cell a marble enters the track at when it leaves the kennel. */
  function StartPosition(p: PlayerIndex): int
  {
    if p == 0 then 0 else if p == 1 then 16 else if p == 2 then 32 else 48
  }

  /** The safe-space slot reachable from the track. */
  function Entry(p: PlayerIndex): int
  {
    SafeSpaces(p)[0]
  }

  /** The deepest safe-space slot. */
  function LastSafe(p: PlayerIndex): int
  {
    SafeSpaces(p)[3]
  }

  /** Every slot of the layout, written as arithmetic on the player index:
      kennels at 64 + 8p .. 67 + 8p, safe spaces at 68 + 8p .. 71 + 8p,
      start cells at 16p. */
  lemma Layout(p: PlayerIndex)
    ensures |Kennel(p)| == 4 && |SafeSpaces(p)| == 4
    ensures forall k :: 0 <= k < 4 ==> Kennel(p)[k] == 64 + 8 * p + k
    ensures forall k :: 0 <= k < 4 ==> SafeSpaces(p)[k] == 68 + 8 * p + k
    ensures StartPosition(p) == 16 * p
    ensures Entry(p) == 68 + 8 * p && LastSafe(p) == 71 + 8 * p
  {
  }

  /** A cell is a kennel slot of p exactly when it lies in p's band of four. */
  lemma InKennel(p: PlayerIndex, x: int)
    ensures x in Kennel(p) <==> 64 + 8 * p <= x <= 67 + 8 * p
  {
    Layout(p);
    if 64 + 8 * p <= x <= 67 + 8 * p {
      assert Kennel(p)[x - 64 - 8 * p] == x;
    }
  }

  /** A cell is a safe-space slot of p exactly when it lies in p's band of four. */
  lemma InSafeSpace(p: PlayerIndex, x: int)
    ensures x in SafeSpaces(p) <==> 68 + 8 * p <= x <= 71 + 8 * p
  {
    Layout(p);
    if 68 + 8 * p <= x <= 71 + 8 * p {
      assert SafeSpaces(p)[x - 68 - 8 * p] == x;
    }
  }

  /** Kennels and safe spaces all lie in 64..95, pairwise apart and apart
      from every start cell; every slot is a valid board index. */
  lemma RegionsDisjoint(p: PlayerIndex, q: PlayerIndex, x: int)
    ensures x in Kennel(p) ==> 64 <= x < BoardSize && x !in SafeSpaces(q)
    ensures x in SafeSpaces(p) ==> 64 <= x < BoardSize
    ensures x in Kennel(p) && x in Kennel(q) ==> p == q
    ensures x in SafeSpaces(p) && x in SafeSpaces(q) ==> p == q
    ensures x == StartPosition(q) ==> x !in Kennel(p) && x !in SafeSpaces(p)
  {
    InKennel(p, x); InKennel(q, x);
    InSafeSpace(p, x); InSafeSpace(q, x);
  }
}
