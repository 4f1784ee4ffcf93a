# Dog and Hangman game engines in Dafny

This project models the rules engines of two turn-based games served by the
repository's game server.

**Dog** (`server/py/dog.py`) is the main part. It covers:
- the fixed board: 96 cells, and per player four kennel slots, four
  safe-space slots and a start cell;
- the doubled 110-card deck and the movement values of every card rank;
- the destination arithmetic of a marble move, with blocking and exact
  entry into the safe space;
- the depth-first search that splits the seven card's seven steps over
  several marbles;
- the move generator;
- applying an action: pass, card to the discard pile, marble move, and
  captures that send opponents back to their kennels;
- the round lifecycle: hand sizes, starting seat, reshuffling, dealing,
  the consistency checks and the next round;
- the masked player view.

**Hangman** (`server/py/hangman.py`) covers:
- upper-case normalisation;
- installing a state, which sorts the guesses into correct and incorrect
  and recomputes the phase;
- the list of letters still available;
- guessing a letter;
- the masked view of the word.

The form of the model follows the source.

- The game state of Dog is a datatype value. The engine class `Dog` holds
  it in a field, and its methods update it in place.
- Every method carries the loops of the corresponding Python method:
  - the nested loops of the move generator;
  - the search over an `array` of step counts, incremented and restored
    in place;
  - the reshuffle and dealing loops;
  - the marble-moving and capture loops.
- Each method is proved equal to a specification function. Lemmas then
  prove about that function what the game promises:
  - cards are conserved;
  - the seven-card search is sound and complete;
  - generated moves are start moves, swaps, plain moves or split legs;
  - captures send each marble to a kennel slot no other marble holds;
  - dealing gives every seat the right number of cards;
  - a freshly dealt state passes the consistency checks.
- Hangman's state object is a class whose fields `set_state` and
  `apply_action` update in place.

Modules:
- `Wrappers`: Option, Outcome and Result;
- `Board`: layout constants;
- `Cards`: the deck and card values;
- `DogState`: the data model, the marble listing and card accounting;
- `Movement`: `_calculate_new_position`;
- `SevenSplit`: `_handle_seven_card` and its search;
- `Seqs`: a flat-map used by every "for each ... append" loop;
- `LegalMoves`: `get_list_action`;
- `Turn`: `apply_action` after the round-end check;
- `Deck`: cards per round, starting seat, dealing and the checks;
- `DogGame`: the engine class and the lifecycle lemmas;
- `HangmanGame`.

Exceptions are modelled as `Outcome`/`Result` values with one error
constructor per raise site. Randomness is abstracted:
- a shuffle is any permutation, specified by `DogGame.Shuffle`;
- the starting player is a constructor parameter.

### Where the code and its description differ (the model follows the code)

- **The four card.** `_get_card_value` tests `isdigit()` before its `'4'`
  and `'7'` branches, so a four yields `[4]` only and never moves
  backwards (`Cards.FourMovesForwardOnly`). A jack yields `[0]`, so the
  move generator also offers a jack "move" of zero steps onto the marble's
  own cell (`Movement.ZeroMoveStays`).
- **Entering the safe space.** Exact arrival on the entry slot is not
  checked against occupied cells (`Movement.EntryIgnoresOccupation`).
- **Kennel exit.** `apply_action` treats a move as a kennel exit only when
  its destination is literally 0 (dog.py:510). So only player 1's (index 0) exits
  mark the marble protected; other players' exits go through the ordinary
  branch.
- **Seven splits.** The search reaches the same split along different step
  orders, so splits and their actions may repeat. The model keeps the
  repetitions; its soundness and completeness lemmas speak of membership.
- **Seven and joker cards** take the split path only while a marble waits
  in the kennel and the own start cell is free (the `if` at dog.py:423 is
  nested in the one at dog.py:412). Otherwise they are handled like other
  cards.
- **Next round.** `next_round` empties the hands without discarding the
  cards, so a round started while cards are still held loses them
  (`DogGame.RoundStartCards`). `apply_action` starts a new round only when
  every hand is already empty, which keeps the total.
- **Dealing.** The reshuffle inside the dealing loop (dog.py:604-608) can
  never run, because the while-loop before it guarantees enough cards. The
  model states this as an assertion in `DogGame.Dog.DealRounds`.

## Model

| member | source | states |
|---|---|---|
| Board.Layout | server/py/dog.py:98-109 | each player's kennel slots are 64+8p..67+8p, safe slots 68+8p..71+8p, start cell 16p, entry and last safe slot the first and last safe slot |
| Board.InKennel | server/py/dog.py:104-109 | a cell is one of p's kennel slots iff it lies in p's band 64+8p..67+8p |
| Board.InSafeSpace | server/py/dog.py:98-103 | a cell is one of p's safe slots iff it lies in p's band 68+8p..71+8p |
| Board.RegionsDisjoint | server/py/dog.py:98-109 | kennels and safe spaces lie on the 96-cell board in 64..95, no kennel slot is a safe slot, no two players share a slot, and no start cell is a kennel or safe slot |
| Cards.SingleDeck | server/py/dog.py:51-79 | one copy of the deck has 55 cards: card i < 52 has suit i mod 4 and rank i div 4, then three jokers |
| Cards.FullDeckShape | server/py/dog.py:51-80 | the full deck has 110 cards, six jokers and exactly two copies of every suited card |
| Cards.OnceInFirstPart | server/py/dog.py:51-79 | every suited card occurs exactly once among the 52 suited cards of a copy |
| Cards.CardValues | server/py/dog.py:224-240 | every rank has at least one value, all at least -4; exactly the joker has 14 values and the backward -4; exactly the ace has two |
| Cards.RankValues | server/py/dog.py:224-240 | the values of every rank of the deck: 2..10 their number, four [4], seven [7], jack [0], queen [12], king [13], ace [1, 11] |
| Cards.LowRankValues | server/py/dog.py:232-233 | ranks 2 to 6 yield their own number |
| Cards.HighRankValues | server/py/dog.py:226-240 | ranks 7 to ace yield 7, 8, 9, 10, [0], [12], [13], [1, 11] |
| Cards.FourMovesForwardOnly | server/py/dog.py:232-237 | a four never yields the backward value -4, since the digit test comes first |
| Movement.SafePathClear | server/py/dog.py:259-261 | the scan succeeds iff no cell of the range is occupied |
| Movement.TrackPathClear | server/py/dog.py:274-276 | the scan succeeds iff no cell of the range, taken mod 96, is occupied |
| Movement.NewPosition | server/py/dog.py:242-278 | three cases: inside the own safe space, the slot `value` further if it exists and no slot up to it is occupied; reaching or passing the own entry, the entry only on exact arrival; otherwise the wrapped destination iff no passed or landed cell is occupied |
| Movement.ForwardMoveUnobstructed | server/py/dog.py:264-278 | a successful forward move that does not end exactly on the entry passes no occupied cell and does not land on one |
| Movement.SafeSpaceOnlyByExactArrival | server/py/dog.py:267-271 | from outside, a marble gets into its safe space only by landing exactly on the entry slot |
| Movement.SafeSpaceMovesForward | server/py/dog.py:252-262 | a move inside the safe space stays inside it and advances |
| Movement.MoveStaysOnBoard | server/py/dog.py:253-278 | any card value from a board cell leads to a board cell, when it succeeds |
| Movement.ZeroMoveStays | server/py/dog.py:264-278 | the jack's value 0 leaves a marble on its own cell |
| Movement.EntryIgnoresOccupation | server/py/dog.py:264-270 | a marble on a cell below its entry slot that lands exactly on it arrives there, whatever cells are occupied, the entry slot included |
| Movement.PassingEntryFails | server/py/dog.py:264-271 | a marble below its entry slot, outside the safe space, that would move past the entry by less than a full lap has no destination, whether the move ends on the track or wraps around |
| DogState.PlayerMarbleInfos | server/py/dog.py:302-308 | one listing entry per marble of a player, in order, carrying its owner, position and protection |
| DogState.AllMarbles | server/py/dog.py:295-309 | an entry is exactly a marble of the player it names, and every marble of every player is listed |
| DogState.BlockedIsOccupied | server/py/dog.py:250 | a cell is in the set collected from the listing iff some marble stands on it |
| DogState.HandsMultiset | server/py/dog.py:285 | the cards in hands: its size is the number of cards held |
| DogState.AllCards | server/py/dog.py:283-287 | the cards of the game, whose size is draw pile + discard pile + hands |
| DogState.HandsAfterUpdate | server/py/dog.py:487-488 | replacing one seat's hand changes the hands by exactly the old hand out and the new one in |
| DogState.EmptyHandsHoldNothing | server/py/dog.py:646-648 | empty hands hold no cards |
| DogState.HandsIgnoreMarbles | server/py/dog.py:510-545 | changing marbles leaves the cards in hands unchanged |
| SevenSplit.OutsideKennel | server/py/dog.py:316-318 | the cells of exactly those own marbles not in the kennel |
| SevenSplit.SplitOfFacts | server/py/dog.py:338 | a recorded split lists exactly the marbles with positive steps, each with its count, in increasing marble order |
| SevenSplit.SplitsSound | server/py/dog.py:323-354 | every split the search records comes from a step vector that adds `remaining` steps by accepted single steps and passes the leaf check |
| SevenSplit.SplitsComplete | server/py/dog.py:323-354 | conversely, the split of every such step vector is recorded |
| SevenSplit.SevenSplitSound | server/py/dog.py:355-358 | a split of the seven card has legs of positive steps summing to 7, each marble can move every count up to its own, and every leg's destination exists |
| SevenSplit.SevenSplitComplete | server/py/dog.py:355-358 | every distribution of seven steps in which each marble can move every count up to its own is recorded |
| SevenSplit.NoSevenActionsFromKennel | server/py/dog.py:316-321 | with every marble in the kennel the seven card yields no action |
| SevenSplit.SevenActionsSound | server/py/dog.py:360-374 | every seven action plays the card, moves a marble outside the kennel by 1 to 7 steps to the cell `_calculate_new_position` gives, and swaps no card |
| SevenSplit.LegActionsSound | server/py/dog.py:362-374 | an action made from a split of seven steps is such a seven move |
| SevenSplit.LegActionShape | server/py/dog.py:364-373 | the one action of a leg moves that leg's marble by its steps to an existing destination |
| SevenSplit.LegWithinTotal | server/py/dog.py:338 | no leg carries more steps than the split's total |
| SevenSplit.ReachesAdvance | server/py/dog.py:341-350 | one more step for a marble below its final count is accepted by the search's pruning test and keeps the target reachable |
| SevenSplit.ReachesStep | server/py/dog.py:341-350 | an accepted step in front of a reachable vector keeps the target reachable |
| SevenSplit.SplitsFromContains | server/py/dog.py:341-354 | the loop from marble j on collects the branch of every later marble |
| SevenSplit.Dfs | server/py/dog.py:323-354 | the in-place search appends exactly the specified splits to `results` and restores the step vector |
| SevenSplit.DfsStep | server/py/dog.py:341-353 | one loop iteration appends exactly the branch of marble i and undoes its increment |
| SevenSplit.LeafCheck | server/py/dog.py:327-334 | the leaf check is true iff every marble with positive steps can move its whole count |
| SevenSplit.CollectSplit | server/py/dog.py:338 | the comprehension builds the split of the step vector |
| LegalMoves.KennelMarbles | server/py/dog.py:404 | exactly the own marbles in the kennel; the first of them is one |
| LegalMoves.LegalActionsSound | server/py/dog.py:378-471 | every generated action plays a card of the hand, swaps no card, and is a start move, a seven split leg, a swap or a plain move |
| LegalMoves.CardActionsSound | server/py/dog.py:407-469 | the actions of one card play that card and are of one of the four kinds |
| LegalMoves.MarbleActionsSound | server/py/dog.py:427-469 | the actions of one marble are swaps or plain moves |
| LegalMoves.CardActionsIncluded | server/py/dog.py:408 | whatever one held card yields is a legal action |
| LegalMoves.StartMoveOffered | server/py/dog.py:411-420 | an A, K or joker in hand, a marble in the kennel and a free start cell yield the move of the first kennel marble to the start cell |
| LegalMoves.StartMoveNeedsFreeStart | server/py/dog.py:411-431 | an action from a kennel slot is a start move: a start card moves the first marble in the kennel to the free own start cell |
| LegalMoves.SevenRuleTakesOver | server/py/dog.py:411-425 | while a marble waits in the kennel and the start cell is free, a seven or joker yields only the joker's start move and seven split legs of one to seven steps: no swap, no other value |
| LegalMoves.SevenRuleOff | server/py/dog.py:412-469 | otherwise a seven moves one marble outside the kennel by exactly 7, and a joker's actions are swaps or plain moves |
| LegalMoves.SplitLegOffered | server/py/dog.py:411-425 | under that condition, with a seven or joker in hand, every leg of every split the search records is a legal action |
| LegalMoves.DistributionLegOffered | server/py/dog.py:311-374 | hence every distribution of seven steps in which each marble can move every count up to its own offers the move of each marble by its count |
| LegalMoves.MarbleActionInCard | server/py/dog.py:427-469 | a marble's actions are its card's actions unless the seven rule takes over the card |
| LegalMoves.PlainMoveOffered | server/py/dog.py:459-469 | every value of a held card that `_calculate_new_position` accepts for a marble outside the kennel yields a plain move, outside the seven rule |
| LegalMoves.SwapOffered | server/py/dog.py:432-456 | a J or joker yields a swap of every unprotected own marble outside the kennel with every eligible opposing marble, outside the seven rule |
| LegalMoves.NoActionWithoutStartCard | server/py/dog.py:404-431 | with all own marbles in the kennel and no A, K or joker in hand there is no action |
| LegalMoves.ActionsStayOnBoard | server/py/dog.py:378-471 | with all marbles on the board, every generated action has a destination on the board |
| LegalMoves.SplitMoveOnBoard | server/py/dog.py:360-374 | a seven leg ends on the board |
| LegalMoves.PlainMoveOnBoard | server/py/dog.py:459-469 | a plain move ends on the board |
| Turn.IndexOf | server/py/dog.py:504 | the index of the first copy of the card |
| Turn.RemoveFirst | server/py/dog.py:504 | `list.remove` succeeds iff the card is held, and removes exactly its first copy: one card fewer, the same multiset minus that card |
| Turn.FindMarble | server/py/dog.py:511-526 | the first own marble on the source cell, or none when no marble stands there |
| Turn.FreeKennelSlot | server/py/dog.py:540-545 | the first kennel slot of the owner on which no marble of any player stands, or none when all are taken |
| Turn.Capture | server/py/dog.py:539-545 | the captured marble goes, unprotected, to that slot; nothing changes when the kennel is full; other players and hands are untouched |
| Turn.ResolveCaptures | server/py/dog.py:530-545 | the capture loops touch neither the active player, nor names, hands or marble counts |
| Turn.CapturesEffect | server/py/dog.py:530-545 | every opposing marble on the destination ends unprotected in its owner's kennel, off the destination, on a slot no other marble holds, or stays because its kennel is full; every other marble keeps its place; no other cell is vacated |
| Turn.CaptureStep | server/py/dog.py:534-545 | the three facts of CapturesEffect carry over one capture |
| Turn.CaptureStepVisits | server/py/dog.py:534-545 | the captured marble and the ones after it end in the kennel or meet a full kennel |
| Turn.CaptureStepKeeps | server/py/dog.py:534-545 | marbles already visited or not on the destination keep their places over one capture |
| Turn.CaptureStepOccupied | server/py/dog.py:539-545 | a capture vacates no cell other than the destination |
| Turn.CaptureKeepsOccupied | server/py/dog.py:539-545 | a cell other than the destination that was taken stays taken |
| Turn.CapturedToKennel | server/py/dog.py:540-545 | with a free slot the captured marble sits in the kennel, unprotected |
| Turn.CaptureAlone | server/py/dog.py:540-545 | a capture puts the marble on the free slot, which differs from the cell it left and which no other marble holds |
| Turn.CaptureKeepsAlone | server/py/dog.py:539-545 | a capture of a marble from another cell leaves a marble alone on its cell |
| Turn.OnlyAtKept | server/py/dog.py:530-545 | the remaining captures leave a marble that stands alone on a cell other than the destination alone there |
| Turn.CapturedKennelFull | server/py/dog.py:540-545 | without a free slot the owner's kennel stays full |
| Turn.CapturesKeepHands | server/py/dog.py:530-545 | captures leave the hands unchanged |
| Turn.TurnConservesCards | server/py/dog.py:484-548 | a pass or a play, raising or not, keeps the multiset of all cards and hence the 110-card total |
| Turn.PlayConservesCards | server/py/dog.py:503-548 | playing a held card keeps all cards, whether the marble move then raises or not |
| Turn.MoveKeepsCards | server/py/dog.py:509-548 | moving and capturing leave every card where it is |
| Turn.PassConservesCards | server/py/dog.py:485-490 | passing moves the whole hand onto the discard pile and loses no card |
| Turn.DiscardConservesCards | server/py/dog.py:503-507 | moving the played card from the hand to the discard pile loses no card |
| Turn.MovedMarblesEffect | server/py/dog.py:509-527 | the move fails iff it is no kennel exit onto 0 and no own marble stands on the source; otherwise the first such marble is on the destination, protected after a kennel exit onto 0 and else exactly in its own safe space |
| Turn.PassEffect | server/py/dog.py:485-490 | a pass empties the active hand onto the discard pile, rotates the turn to (idx+1) mod 4 and changes nothing else |
| Turn.PlayEffect | server/py/dog.py:499-548 | a card not held raises and changes nothing; otherwise its first copy is discarded, a missing marble raises after that, and a missing marble leaves exactly the new hand and discard pile; when the marble is found the move passes and the new state is that one with the moved marble, the resolved captures and the next active seat, every other field unchanged |
| Deck.CardsPerRound | server/py/dog.py:550-553 | the hand size lies between 2 and 6 |
| Deck.CardsPerRoundCycle | server/py/dog.py:550-553 | 6 in round one, period five, one fewer each round except 6 after 2 |
| Deck.PreviousSeat | server/py/dog.py:555-559 | the previous seat, anti-clockwise, a valid seat, wrapping 0 to 3 |
| Deck.PreviousSeatCycle | server/py/dog.py:555-559 | four rounds bring the starting seat back |
| Deck.ClearHands | server/py/dog.py:646-648 | every hand is emptied and nothing else changes |
| Deck.DealSteps | server/py/dog.py:601-612 | k single deals keep four seats and take k cards from the draw pile |
| Deck.DealOneConserves | server/py/dog.py:610-612 | one deal moves one card from the draw pile into a hand |
| Deck.DealConserves | server/py/dog.py:601-612 | dealing keeps the multiset of draw pile and hands |
| Deck.DealKeepsRest | server/py/dog.py:601-612 | dealing changes nothing but the draw pile and the hands |
| Deck.DealtTo | server/py/dog.py:601-612 | seat q receives n cards in n rounds |
| Deck.DealRounds | server/py/dog.py:601-612 | n rounds take the last 4n cards of the draw pile, and seat q receives the cards 4t+q from the top, in order |
| Deck.DealPile | server/py/dog.py:611 | each deal takes the top (last) card of the draw pile |
| Deck.DealHand | server/py/dog.py:601-612 | after n rounds seat q holds its old hand followed by its n dealt cards |
| Deck.RoundHand | server/py/dog.py:602-612 | one more round gives seat q the card 4n+q below the top of the original pile |
| Deck.RoundStep | server/py/dog.py:603-612 | the four deals of a round give seat q the card q below the current top |
| Deck.OneRound | server/py/dog.py:603-612 | a round takes four cards from the top, one to each seat in seat order |
| Deck.UnfoldRound | server/py/dog.py:602-603 | the deals of round r+1 are the four deals after those of round r |
| Deck.DealRoundsSizes | server/py/dog.py:601-612 | n rounds give every seat exactly n more cards |
| Deck.TotalCardsCheck | server/py/dog.py:281-293 | passes iff the cards of the piles and hands number 110, else raises the mismatch |
| Deck.FirstOverfull | server/py/dog.py:623-625 | the first seat from i on with more cards than allowed, all seats before it within the limit, or none |
| Deck.GameStateCheck | server/py/dog.py:616-632 | passes iff every hand is within the round's size and the total is 110; names an over-full player in its error, and otherwise raises the mismatch |
| Deck.DealtStateIsValid | server/py/dog.py:584-632 | dealing a round from a complete game with empty hands yields a state both checks accept |
| DogGame.Shuffle | server/py/dog.py:581 | the shuffled pile is a permutation of the input |
| DogGame.InitialPlayers | server/py/dog.py:123-133 | four players |
| DogGame.InitialState | server/py/dog.py:141-154 | the initial state has four seats and valid seat indices |
| DogGame.InitialStateFacts | server/py/dog.py:116-154 | a new game has empty hands, every marble protected on its own kennel slot, no two marbles on one cell, and exactly the deck's cards |
| DogGame.Restocked | server/py/dog.py:592-596 | restocking only moves cards between the two piles and changes nothing else |
| DogGame.DealCardsEffect | server/py/dog.py:584-612 | dealing succeeds iff draw and discard pile hold 4n cards and raises otherwise; it keeps all cards, seats, names, marbles and round; on success every hand gains exactly n cards |
| DogGame.DealtEffect | server/py/dog.py:598-612 | the successful branch of DealCardsEffect |
| DogGame.ShortEffect | server/py/dog.py:592-596 | the raising branch of DealCardsEffect |
| DogGame.RestockedCount | server/py/dog.py:575-578 | restocking keeps the number of cards in the two piles |
| DogGame.DealtConserves | server/py/dog.py:592-612 | restocking, reordering and dealing keep the multiset of all cards |
| DogGame.DealFromEmptyHandsIsValid | server/py/dog.py:584-632 | a successful deal onto empty hands in a complete game yields a state the checks accept |
| DogGame.RoundStart | server/py/dog.py:640-648 | the state a new round deals from keeps four seats and valid indices |
| DogGame.RoundStartCards | server/py/dog.py:646-648 | emptying the hands drops exactly the held cards, so a new round keeps all cards iff the hands were already empty |
| DogGame.NextRoundIsValid | server/py/dog.py:635-653 | a new round begun from a complete game with empty hands deals a state the checks accept, or raises NotEnoughCards |
| DogGame.MaskPlayers | server/py/dog.py:660-665 | the named player keeps its state; every other player shows name and marbles but no cards |
| DogGame.MaskShowsOwnCardsOnly | server/py/dog.py:660-665 | the view holds exactly the named player's cards and every marble |
| DogGame.MaskHands | server/py/dog.py:660-665 | the cards in the masked hands are exactly the named player's |
| DogGame.MarblesIgnoreHands | server/py/dog.py:295-309 | the marble listing depends on names and marbles only |
| DogGame.Dog.constructor | server/py/dog.py:111-158 | a new engine holds a well-formed state dealt from some permutation of the full deck, which the consistency checks accept |
| DogGame.Dog.ReshuffleDiscardIntoDraw | server/py/dog.py:561-582 | raises on an empty discard pile, changing nothing; otherwise the discard pile is empty and the draw pile a permutation of draw and discard piles, nothing else changing |
| DogGame.Dog.DealCards | server/py/dog.py:584-612 | the new state is what dealing leaves for some shuffle order (DealCardsEffect says what that means) |
| DogGame.Dog.DealRounds | server/py/dog.py:601-612 | the nested dealing loops perform exactly 4n single deals, and the reshuffle branch inside them cannot be taken |
| DogGame.Dog.UpdateStartingPlayer | server/py/dog.py:555-559 | only the starting seat changes, to the previous seat |
| DogGame.Dog.NextRound | server/py/dog.py:635-653 | the new state is a deal from the next round's start: round + 1, previous starting seat, empty hands |
| DogGame.Dog.ValidateGameState | server/py/dog.py:616-632 | the two loops compute the consistency check |
| DogGame.Dog.GetPlayerView | server/py/dog.py:656-665 | the masking loop builds the masked players |
| DogGame.Dog.GetListAction | server/py/dog.py:378-471 | the card loop computes the legal actions |
| DogGame.Dog.CardMoves | server/py/dog.py:407-469 | one card's start move, seven split or per-marble actions |
| DogGame.Dog.MarbleMoves | server/py/dog.py:427-469 | one marble's swaps and plain moves |
| DogGame.Dog.SwapMoves | server/py/dog.py:433-456 | the swap loop yields one swap per eligible listed marble |
| DogGame.Dog.ValueMoves | server/py/dog.py:459-469 | the value loop yields one move per accepted value |
| DogGame.Dog.HandleSevenCard | server/py/dog.py:311-374 | the search and the action loop compute the seven card's actions |
| DogGame.Dog.SplitMoves | server/py/dog.py:362-374 | the leg loop yields one action per leg that can move |
| DogGame.Dog.ApplyAction | server/py/dog.py:473-548 | with a card still held, the turn is played on the current state; with all hands empty, a new round is dealt first, and its failure is returned with the dealt state |
| DogGame.Dog.Play | server/py/dog.py:484-548 | the new state and outcome are those of the turn |
| DogGame.Dog.MoveMarble | server/py/dog.py:510-527 | the active player's marbles become the moved marbles, or MarbleNotFound is raised with nothing changed |
| DogGame.Dog.ResolveCollisions | server/py/dog.py:530-545 | the capture loops compute the captures and change nothing else |
| DogGame.Dog.FindFreeSlot | server/py/dog.py:540-545 | the kennel loop finds the first free kennel slot |
| HangmanGame.UpperChar | server/py/hangman.py:22 | a to z move to A to Z, every other character stays |
| HangmanGame.Upper | server/py/hangman.py:22 | upper-casing character by character, same length |
| HangmanGame.UpperIdempotent | server/py/hangman.py:22 | upper-cased text has no lower-case letter and stays the same when upper-cased again |
| HangmanGame.OccursChar | server/py/hangman.py:302 | for one letter, the substring test is membership |
| HangmanGame.NewGuessLetterAction | server/py/hangman.py:21-22 | the stored letter is upper-case, of the same length, and an upper-case letter is stored unchanged |
| HangmanGame.HangmanGameState.constructor | server/py/hangman.py:52-62 | the word is stored upper-cased, the other fields as given |
| HangmanGame.CorrectGuesses | server/py/hangman.py:102-105 | at most as many as the guesses |
| HangmanGame.IncorrectGuesses | server/py/hangman.py:106-109 | at most as many as the guesses |
| HangmanGame.GuessesClassified | server/py/hangman.py:102-109 | a string is a correct guess iff it is an upper-cased guess occurring in the word, and incorrect iff it is one not occurring |
| HangmanGame.GuessesPartitioned | server/py/hangman.py:102-109 | every guess goes to exactly one of the two lists |
| HangmanGame.PhaseAfterSetState | server/py/hangman.py:115-120 | FINISHED iff every letter of the word is guessed or there are at least 8 incorrect guesses, else RUNNING, never SETUP |
| HangmanGame.Available | server/py/hangman.py:273-278 | a letter is available iff it is in the alphabet and not guessed |
| HangmanGame.AvailableSorted | server/py/hangman.py:279 | the available letters keep the alphabet's strict order |
| HangmanGame.GuessedIn | server/py/hangman.py:274-277 | exactly the alphabet letters that were guessed |
| HangmanGame.AvailableCount | server/py/hangman.py:273-278 | available plus guessed letters make up the alphabet |
| HangmanGame.SortedFront | server/py/hangman.py:279 | a strictly sorted string without its last letter is strictly sorted and lacks that letter |
| HangmanGame.LetterActions | server/py/hangman.py:279 | one guess action per letter, in order |
| HangmanGame.AvailableLetters | server/py/hangman.py:273-279 | the available letters are exactly A to Z minus the guessed ones, strictly sorted, 26 minus the number of distinct guessed letters |
| HangmanGame.AlphabetFacts | server/py/hangman.py:273 | the alphabet holds the 26 letters A to Z, each once, in order |
| HangmanGame.PhaseAfterGuess | server/py/hangman.py:309-312 | FINISHED when the word is guessed or there are at least 8 incorrect guesses, otherwise unchanged |
| HangmanGame.MaskedWord | server/py/hangman.py:330-333 | 2n-1 characters for an n-letter word: letter k at 2k, shown only if guessed, spaces between |
| HangmanGame.MaskedWordReveals | server/py/hangman.py:330-333 | a letter is shown iff it was guessed and hidden as `_` iff it was not |
| HangmanGame.Hangman.constructor | server/py/hangman.py:74-77 | no state yet |
| HangmanGame.Hangman.SetState | server/py/hangman.py:88-122 | in place: the guesses become the correct guesses, the incorrect ones are appended, the phase is recomputed, and the state is installed |
| HangmanGame.Hangman.GetListAction | server/py/hangman.py:260-279 | raises without a state, otherwise one action per available letter |
| HangmanGame.Hangman.ApplyAction | server/py/hangman.py:281-312 | raises and changes nothing without a state, outside RUNNING, or for a repeated letter; otherwise the letter is appended to exactly one list, by whether it occurs in the word, and the phase follows PhaseAfterGuess; a new letter with a RUNNING state always succeeds |
| HangmanGame.Hangman.GetPlayerView | server/py/hangman.py:314-339 | raises without a state; otherwise a fresh state with the masked word and the same phase and guesses |

## Left out

- Console output (`print_state`, `draw_board`, `print_hangman`, the debug `print` calls and the driver loops): presentation only.
- Randomness: `random.shuffle` is `DogGame.Shuffle`, any permutation, and the body picks the identity; `random.randint` for the starting player is a constructor parameter.
- `RandomPlayer` classes, `dog_player.py` and the battleship games: a random choice, callbacks, and no game logic.
- Pydantic validation and the `isinstance` check of Dog's `set_state`, and the trivial `reset`, `set_state` and `get_state` of Dog: type plumbing and field access.
- The `if not self.state` checks of the Dog engine: the constructor always installs a state, so they cannot fire.
- The `Game` and `Player` base classes: they are not part of this model.
- The `GameState(...)` construction at the end of Dog's `get_player_view`: it reads fields the state does not declare. `DogGame.Dog.GetPlayerView` returns the masked players only.
- DogGame.Dog.ApplyAction: an action is required to name its destination (`pos_to`); the model cannot represent a marble position of None.
- Aliasing between Dog's marble and player objects: they are values in the model; every update the source makes through an alias is made on the one value.
- Aliasing of Hangman's guess lists: `get_player_view` returns a state sharing the live `guesses` and `incorrect_guesses` lists (hangman.py:337-338), and `set_state` extends the caller's `incorrect_guesses` list in place (hangman.py:112). The model copies these lists as `seq` values, so a later change to one list is not seen through the other object.
- Hangman's `allow_empty_word_to_guess` flag and the empty-word branch of `set_state`: it only prints.
- `str.upper` and `str.isdigit` are modelled on ASCII only.
- Hangman tests that call methods the class does not have, or that contradict the code: not taken as a description of the behaviour.
