/** The Hangman state machine (hangman.py): a word to guess, the correct
    and the incorrect guesses, and three operations — installing a state,
    listing the letters still available, and guessing a letter — plus the
    masked view of the word. */
module HangmanGame {
  import opened Wrappers

  // ---------------------------------------------------------------------
  // Upper-case normalisation (ASCII letters only)

  function UpperChar(c: char): (r: char)
    ensures 'a' <= c <= 'z' ==> r as int == c as int - 32
    ensures !('a' <= c <= 'z') ==> r == c
  {
    if 'a' <= c <= 'z' then (c as int - 32) as char else c
  }

  /** `str.upper()` on ASCII text. */
  function Upper(s: string): (r: string)
    ensures |r| == |s| && forall k :: 0 <= k < |s| ==> r[k] == UpperChar(s[k])
  {
    seq(|s|, k requires 0 <= k < |s| => UpperChar(s[k]))
  }

  predicate IsUpperText(s: string)
  {
    forall k :: 0 <= k < |s| ==> !('a' <= s[k] <= 'z')
  }

  /** Upper-casing yields upper-case text and changes such text no more. */
  lemma UpperIdempotent(s: string)
    ensures IsUpperText(Upper(s))
    ensures Upper(Upper(s)) == Upper(s)
    ensures IsUpperText(s) ==> Upper(s) == s
  {
  }

  /** Python's `in` between two strings: `sub` occurs in `s` as a contiguous
      piece. */
  predicate Occurs(sub: string, s: string)
  {
    exists i :: 0 <= i <= |s| - |sub| && OccursAt(sub, s, i)
  }

  /** `sub` occurs in `s` starting at index `i`. */
  predicate OccursAt(sub: string, s: string, i: int)
  {
    0 <= i <= |s| - |sub| && s[i..i + |sub|] == sub
  }

  /** A single character occurs in a string exactly when it is one of its
      characters. */
  lemma OccursChar(c: char, s: string)
    ensures Occurs([c], s) <==> c in s
  {
    if c in s {
      var i :| 0 <= i < |s| && s[i] == c;
      assert s[i..i + 1] == [c];
      assert OccursAt([c], s, i);
    }
    if Occurs([c], s) {
      var i :| 0 <= i <= |s| - 1 && OccursAt([c], s, i);
      assert s[i..i + 1][0] == s[i];
    }
  }

  // ---------------------------------------------------------------------
  // Data

  datatype GamePhase = Setup | Running | Finished

  /** A guess; the letter is stored upper-cased (hangman.py:21-22). */
  datatype GuessLetterAction = GuessLetterAction(letter: string)

  /** The constructor of hangman.py:21-22. */
  function NewGuessLetterAction(letter: string): (a: GuessLetterAction)
    ensures IsUpperText(a.letter) && |a.letter| == |letter|
    ensures IsUpperText(letter) ==> a.letter == letter
  {
    UpperIdempotent(letter);
    GuessLetterAction(Upper(letter))
  }

  /** The number of incorrect guesses that ends the game. */
  const MaxAttempts: int := 8

  datatype HangmanError = NotInitialized | NotRunning | AlreadyGuessed

  class HangmanGameState {
    var wordToGuess: string
    var phase: GamePhase
    var guesses: seq<string>
    var incorrectGuesses: seq<string>

    /** hangman.py:52-62: the word is stored upper-cased. */
    constructor (word: string, phase: GamePhase, guesses: seq<string>, incorrectGuesses: seq<string>)
      ensures wordToGuess == Upper(word) && IsUpperText(wordToGuess)
      ensures this.phase == phase && this.guesses == guesses && this.incorrectGuesses == incorrectGuesses
    {
      UpperIdempotent(word);
      wordToGuess := Upper(word);
      this.phase := phase;
      this.guesses := guesses;
      this.incorrectGuesses := incorrectGuesses;
    }
  }

  // ---------------------------------------------------------------------
  // set_state

  /** Every letter of the word is among the guesses (hangman.py:115, 309). */
  predicate WordGuessed(word: string, guesses: seq<string>)
  {
    forall k :: 0 <= k < |word| ==> [word[k]] in guesses
  }

  /** The upper-cased guesses that occur in the word, in order
      (hangman.py:101-104). */
  function CorrectGuesses(word: string, gs: seq<string>): (r: seq<string>)
    ensures |r| <= |gs|
  {
    if gs == [] then []
    else
      var n := |gs| - 1;
      CorrectGuesses(word, gs[..n]) + (if Occurs(Upper(gs[n]), word) then [Upper(gs[n])] else [])
  }

  /** The upper-cased guesses that do not occur in the word, in order
      (hangman.py:105-108). */
  function IncorrectGuesses(word: string, gs: seq<string>): (r: seq<string>)
    ensures |r| <= |gs|
  {
    if gs == [] then []
    else
      var n := |gs| - 1;
      IncorrectGuesses(word, gs[..n]) + (if Occurs(Upper(gs[n]), word) then [] else [Upper(gs[n])])
  }

  /** The correct guesses are exactly the upper-cased guesses occurring in
      the word, the incorrect ones exactly those that do not. */
  lemma {:induction false} GuessesClassified(word: string, gs: seq<string>, x: string)
    ensures x in CorrectGuesses(word, gs) <==> Occurs(x, word) && exists g :: g in gs && Upper(g) == x
    ensures x in IncorrectGuesses(word, gs) <==> !Occurs(x, word) && exists g :: g in gs && Upper(g) == x
  {
    if gs != [] {
      var n := |gs| - 1;
      GuessesClassified(word, gs[..n], x);
      assert gs == gs[..n] + [gs[n]];
      if exists g :: g in gs && Upper(g) == x {
        var g :| g in gs && Upper(g) == x;
        if g != gs[n] {
          assert g in gs[..n];
        }
      }
    }
  }

  /** Every guess goes to exactly one of the two lists. */
  lemma {:induction false} GuessesPartitioned(word: string, gs: seq<string>)
    ensures |CorrectGuesses(word, gs)| + |IncorrectGuesses(word, gs)| == |gs|
  {
    if gs != [] {
      GuessesPartitioned(word, gs[..|gs| - 1]);
    }
  }

  /** The phase `set_state` computes (hangman.py:115-120). */
  function PhaseAfterSetState(word: string, guesses: seq<string>, incorrect: seq<string>): (r: GamePhase)
    ensures r == Finished <==> WordGuessed(word, guesses) || |incorrect| >= MaxAttempts
    ensures r != Setup
  {
    if WordGuessed(word, guesses) then Finished
    else if |incorrect| >= MaxAttempts then Finished
    else Running
  }

  // ---------------------------------------------------------------------
  // get_list_action

  /** `string.ascii_uppercase`: the letters A to Z in order. */
  const Alphabet: string := seq(26, k requires 0 <= k < 26 => ('A' as int + k) as char)

  /** The letters already guessed: the upper-cased guesses (hangman.py:276-277). */
  function Guessed(gs: seq<string>): set<string>
  {
    set g | g in gs :: Upper(g)
  }

  /** The letters of `alpha` not guessed, in the order of `alpha`. */
  function Available(alpha: string, guessed: set<string>): (r: string)
    ensures forall c :: c in r <==> c in alpha && [c] !in guessed
    ensures |r| <= |alpha|
  {
    if alpha == [] then []
    else
      var n := |alpha| - 1;
      assert alpha == alpha[..n] + [alpha[n]];
      Available(alpha[..n], guessed) + (if [alpha[n]] in guessed then [] else [alpha[n]])
  }

  /** A string whose characters strictly increase. */
  predicate StrictlySorted(s: string)
  {
    forall a, b :: 0 <= a < b < |s| ==> s[a] < s[b]
  }

  /** Filtering keeps a strictly increasing order. */
  lemma {:induction false} AvailableSorted(alpha: string, guessed: set<string>)
    requires StrictlySorted(alpha)
    ensures StrictlySorted(Available(alpha, guessed))
  {
    if alpha != [] {
      var n := |alpha| - 1;
      var front := Available(alpha[..n], guessed);
      AvailableSorted(alpha[..n], guessed);
      forall c | c in front ensures c < alpha[n] {
        assert c in alpha[..n];
        var k :| 0 <= k < n && alpha[..n][k] == c;
      }
      var r := Available(alpha, guessed);
      assert r == front + (if [alpha[n]] in guessed then [] else [alpha[n]]);
      forall a, b | 0 <= a < b < |r| ensures r[a] < r[b] {
        if b < |front| {
          assert r[a] == front[a] && r[b] == front[b];
        } else {
          assert r[a] == front[a] && front[a] in front;
        }
      }
    }
  }

  /** The letters of `alpha` that have been guessed. */
  function GuessedIn(alpha: string, guessed: set<string>): (r: set<char>)
    ensures forall c :: c in r <==> c in alpha && [c] in guessed
  {
    if alpha == [] then {}
    else
      var n := |alpha| - 1;
      assert alpha == alpha[..n] + [alpha[n]];
      GuessedIn(alpha[..n], guessed) + (if [alpha[n]] in guessed then {alpha[n]} else {})
  }

  /** Without repeated letters, the available and the guessed letters
      together are the whole alphabet. */
  lemma {:induction false} AvailableCount(alpha: string, guessed: set<string>)
    requires StrictlySorted(alpha)
    ensures |Available(alpha, guessed)| + |GuessedIn(alpha, guessed)| == |alpha|
  {
    if alpha != [] {
      var n := |alpha| - 1;
      var pre, c := alpha[..n], alpha[n];
      SortedFront(alpha);
      AvailableCount(pre, guessed);
      assert |Available(alpha, guessed)| == |Available(pre, guessed)| + (if [c] in guessed then 0 else 1);
      assert c !in GuessedIn(pre, guessed);
      assert |GuessedIn(alpha, guessed)| == |GuessedIn(pre, guessed)| + (if [c] in guessed then 1 else 0);
    }
  }

  /** Dropping the last letter of a strictly sorted string leaves a strictly
      sorted string without that letter. */
  lemma SortedFront(alpha: string)
    requires StrictlySorted(alpha) && alpha != []
    ensures StrictlySorted(alpha[..|alpha| - 1]) && alpha[|alpha| - 1] !in alpha[..|alpha| - 1]
  {
    var n := |alpha| - 1;
    var pre := alpha[..n];
    forall a, b | 0 <= a < b < |pre| ensures pre[a] < pre[b] {
      assert pre[a] == alpha[a] && pre[b] == alpha[b];
    }
    forall k | 0 <= k < n ensures pre[k] != alpha[n] {
      assert pre[k] == alpha[k];
    }
  }

  /** The actions `get_list_action` offers (hangman.py:273-279). */
  function LetterActions(letters: string): (r: seq<GuessLetterAction>)
    ensures |r| == |letters| && forall k :: 0 <= k < |letters| ==> r[k] == GuessLetterAction([letters[k]])
  {
    seq(|letters|, k requires 0 <= k < |letters| => GuessLetterAction([letters[k]]))
  }

  /** The available letters: exactly the upper-case letters not guessed,
      sorted, 26 minus the number of distinct letters guessed. */
  lemma AvailableLetters(gs: seq<string>)
    ensures var r := Available(Alphabet, Guessed(gs));
      && (forall c :: c in r <==> 'A' <= c <= 'Z' && [c] !in Guessed(gs))
      && StrictlySorted(r)
      && |r| == 26 - |GuessedIn(Alphabet, Guessed(gs))|
  {
    var guessed := Guessed(gs);
    AlphabetFacts();
    assert StrictlySorted(Available(Alphabet, guessed)) by {
      AvailableSorted(Alphabet, guessed);
    }
    assert |Available(Alphabet, guessed)| == 26 - |GuessedIn(Alphabet, guessed)| by {
      AvailableCount(Alphabet, guessed);
    }
  }

  /** The alphabet holds the 26 upper-case letters, each once, in order. */
  lemma AlphabetFacts()
    ensures |Alphabet| == 26 && StrictlySorted(Alphabet)
    ensures forall c :: c in Alphabet <==> 'A' <= c <= 'Z'
  {
    forall c ensures c in Alphabet <==> 'A' <= c <= 'Z' {
      if 'A' <= c <= 'Z' {
        assert Alphabet[c as int - 'A' as int] == c;
      }
    }
  }

  // ---------------------------------------------------------------------
  // apply_action

  /** The phase after a guess (hangman.py:309-312): finished once the word
      is guessed or the incorrect guesses reach the limit, otherwise as it
      was. */
  function PhaseAfterGuess(word: string, guesses: seq<string>, incorrect: seq<string>, phase: GamePhase): (r: GamePhase)
    ensures WordGuessed(word, guesses) || |incorrect| >= MaxAttempts ==> r == Finished
    ensures !WordGuessed(word, guesses) && |incorrect| < MaxAttempts ==> r == phase
  {
    if WordGuessed(word, guesses) then Finished
    else if |incorrect| >= MaxAttempts then Finished
    else phase
  }

  // ---------------------------------------------------------------------
  // get_player_view

  /** The character shown for one letter of the word (hangman.py:331). */
  function Shown(c: char, guesses: seq<string>): char
  {
    if [c] in guesses then c else '_'
  }

  /** `' '.join(...)` over the shown characters (hangman.py:330-333). */
  function MaskedWord(word: string, guesses: seq<string>): (r: string)
    ensures |word| > 0 ==> |r| == 2 * |word| - 1
    ensures |word| == 0 ==> r == ""
    ensures forall k :: 0 <= k < |word| ==> r[2 * k] == Shown(word[k], guesses)
    ensures forall k :: 0 <= k < |word| - 1 ==> r[2 * k + 1] == ' '
  {
    if |word| <= 1 then (if word == [] then [] else [Shown(word[0], guesses)])
    else
      var front := MaskedWord(word[..|word| - 1], guesses);
      assert forall k :: 0 <= k < |word| - 1 ==> word[..|word| - 1][k] == word[k];
      front + [' ', Shown(word[|word| - 1], guesses)]
  }

  /** The masked word reveals exactly the guessed letters: a letter is
      shown when it was guessed and hidden as `_` otherwise. */
  lemma MaskedWordReveals(word: string, guesses: seq<string>, k: int)
    requires 0 <= k < |word| && word[k] != '_'
    ensures MaskedWord(word, guesses)[2 * k] == word[k] <==> [word[k]] in guesses
    ensures MaskedWord(word, guesses)[2 * k] == '_' <==> [word[k]] !in guesses
  {
  }

  class Hangman {
    var state: HangmanGameState?

    /** hangman.py:74-77: no state yet. */
    constructor ()
      ensures state == null
    {
      state := null;
    }

    /** `set_state` (hangman.py:89-122): keeps as guesses the upper-cased
        guesses occurring in the word, appends the others to the incorrect
        guesses, recomputes the phase and installs the state. */
    method SetState(st: HangmanGameState)
      modifies this, st
      ensures state == st
      ensures st.wordToGuess == old(st.wordToGuess)
      ensures st.guesses == CorrectGuesses(st.wordToGuess, old(st.guesses))
      ensures st.incorrectGuesses == old(st.incorrectGuesses) + IncorrectGuesses(st.wordToGuess, old(st.guesses))
      ensures st.phase == PhaseAfterSetState(st.wordToGuess, st.guesses, st.incorrectGuesses)
    {
      var word := st.wordToGuess;
      var correct := CorrectGuesses(word, st.guesses);
      var incorrect := IncorrectGuesses(word, st.guesses);
      st.guesses := correct;
      st.incorrectGuesses := st.incorrectGuesses + incorrect;
      if WordGuessed(word, st.guesses) {
        st.phase := Finished;
      } else if |st.incorrectGuesses| >= MaxAttempts {
        st.phase := Finished;
      } else {
        st.phase := Running;
      }
      state := st;
    }

    /** `get_list_action` (hangman.py:261-279). */
    method GetListAction() returns (r: Result<seq<GuessLetterAction>, HangmanError>)
      ensures state == null ==> r == Failure(NotInitialized)
      ensures state != null ==> r == Success(LetterActions(Available(Alphabet, Guessed(state.guesses + state.incorrectGuesses))))
    {
      if state == null {
        return Failure(NotInitialized);
      }
      var letters := Available(Alphabet, Guessed(state.guesses + state.incorrectGuesses));
      r := Success(LetterActions(letters));
    }

    /** `apply_action` (hangman.py:281-312): raises, changing nothing,
        without a state, outside the running phase or for a letter already
        guessed; otherwise appends the letter to exactly one of the two
        lists and finishes the game when it is won or lost. */
    method ApplyAction(action: GuessLetterAction) returns (r: Outcome<HangmanError>)
      modifies state
      ensures state == old(state)
      ensures state == null ==> r == Fail(NotInitialized)
      ensures state != null && old(state.phase) != Running ==> r == Fail(NotRunning)
      ensures state != null && old(state.phase) == Running && action.letter in old(state.guesses) + old(state.incorrectGuesses) ==>
        r == Fail(AlreadyGuessed)
      ensures r.Fail? && state != null ==> unchanged(state)
      ensures state != null && old(state.phase) == Running && action.letter !in old(state.guesses) + old(state.incorrectGuesses) ==>
        r == Pass
      ensures r.Pass? ==>
        && state != null && old(state.phase) == Running
        && action.letter !in old(state.guesses) + old(state.incorrectGuesses)
        && state.wordToGuess == old(state.wordToGuess)
        && (Occurs(action.letter, state.wordToGuess) ==>
              state.guesses == old(state.guesses) + [action.letter] && state.incorrectGuesses == old(state.incorrectGuesses))
        && (!Occurs(action.letter, state.wordToGuess) ==>
              state.guesses == old(state.guesses) && state.incorrectGuesses == old(state.incorrectGuesses) + [action.letter])
        && state.phase == PhaseAfterGuess(state.wordToGuess, state.guesses, state.incorrectGuesses, Running)
    {
      if state == null {
        return Fail(NotInitialized);
      }
      if state.phase != Running {
        return Fail(NotRunning);
      }
      var letter := action.letter;
      if letter in state.guesses + state.incorrectGuesses {
        return Fail(AlreadyGuessed);
      }
      if Occurs(letter, state.wordToGuess) {
        state.guesses := state.guesses + [letter];
      } else {
        state.incorrectGuesses := state.incorrectGuesses + [letter];
      }
      if WordGuessed(state.wordToGuess, state.guesses) {
        state.phase := Finished;
      } else if |state.incorrectGuesses| >= MaxAttempts {
        state.phase := Finished;
      }
      r := Pass;
    }

    /** `get_player_view` (hangman.py:314-339): a new state whose word is
        the masked word, with the same phase and guesses. */
    method GetPlayerView(idxPlayer: int) returns (r: Result<HangmanGameState, HangmanError>)
      ensures state == null ==> r == Failure(NotInitialized)
      ensures state != null ==> r.Success? && fresh(r.value)
      ensures r.Success? ==>
        && r.value.wordToGuess == Upper(MaskedWord(state.wordToGuess, state.guesses))
        && r.value.phase == state.phase
        && r.value.guesses == state.guesses
        && r.value.incorrectGuesses == state.incorrectGuesses
    {
      if state == null {
        return Failure(NotInitialized);
      }
      var masked := MaskedWord(state.wordToGuess, state.guesses);
      var view := new HangmanGameState(masked, state.phase, state.guesses, state.incorrectGuesses);
      r := Success(view);
    }
  }
}
