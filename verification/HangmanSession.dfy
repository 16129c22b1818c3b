/**
 * The Hangman game session as a state machine: the fields the component
 * keeps, and one method per event handler. Each method states which fields
 * it sets and which it leaves alone, and keeps the session invariant.
 */
module HangmanSession {
  import opened HangmanLogic

  /** Which screen is shown: mode selection, word entry by player 1, or the game. */
  datatype Phase = Menu | Setup | Playing

  datatype Mode = Single | Multi

  class Session {
    var phase: Phase
    var mode: Option<Mode>
    var customWordInput: string
    var customWordError: string
    var word: string
    var guessedLetters: set<char>
    var wrongGuesses: nat

    /** The data of the current round. */
    function CurrentRound(): Round
      reads this
    {
      Round(word, guessedLetters, wrongGuesses)
    }

    /**
     * The session invariant: the round is consistent (the counter is the
     * tally of wrong letters, at most 6, never won and lost at once), and
     * the word is a playable word whenever the game screen is shown.
     */
    ghost predicate Valid()
      reads this
    {
      RoundInv(CurrentRound()) && (phase == Playing ==> IsSecretWord(word))
    }

    /** The state the component starts in. */
    constructor ()
      ensures Valid()
      ensures phase == Menu && mode == None
      ensures customWordInput == "" && customWordError == ""
      ensures word == "" && guessedLetters == {} && wrongGuesses == 0
    {
      phase := Menu;
      mode := None;
      customWordInput := "";
      customWordError := "";
      word := "";
      guessedLetters := {};
      wrongGuesses := 0;
      NewRoundInv("");
    }

    /** Single player: a word from the pool, a fresh round, the game screen. */
    method StartSinglePlayer(choice: nat)
      requires Valid()
      requires choice < |WORDS|
      modifies this
      ensures Valid()
      ensures mode == Some(Single) && phase == Playing
      ensures word == RandomWord(choice) && guessedLetters == {} && wrongGuesses == 0
      ensures customWordInput == old(customWordInput) && customWordError == old(customWordError)
    {
      mode := Some(Single);
      word := RandomWord(choice);
      guessedLetters := {};
      wrongGuesses := 0;
      phase := Playing;
      NewRoundInv(word);
    }

    /** Two players: clear the word entry and show it; the old round is left as it was. */
    method StartMultiPlayer()
      requires Valid()
      modifies this
      ensures Valid()
      ensures mode == Some(Multi) && phase == Setup
      ensures customWordInput == "" && customWordError == ""
      ensures CurrentRound() == old(CurrentRound())
    {
      mode := Some(Multi);
      customWordInput := "";
      customWordError := "";
      phase := Setup;
    }

    /** Player 1 edits the custom word; any error shown is cleared. */
    method EditCustomWord(value: string)
      requires Valid()
      modifies this
      ensures Valid()
      ensures customWordInput == value && customWordError == ""
      ensures phase == old(phase) && mode == old(mode)
      ensures CurrentRound() == old(CurrentRound())
    {
      customWordInput := value;
      customWordError := "";
    }

    /** Player 1 lets the game pick: a word from the pool, a fresh round, straight to the game. */
    method HandleAutoGenerate(choice: nat)
      requires Valid()
      requires choice < |WORDS|
      modifies this
      ensures Valid()
      ensures phase == Playing && mode == old(mode)
      ensures word == RandomWord(choice) && guessedLetters == {} && wrongGuesses == 0
      ensures customWordInput == old(customWordInput) && customWordError == old(customWordError)
    {
      word := RandomWord(choice);
      guessedLetters := {};
      wrongGuesses := 0;
      phase := Playing;
      NewRoundInv(word);
    }

    /**
     * Player 1 submits the custom word. A cleaned word of 2 to 20 letters
     * starts a fresh round on it; otherwise only the error text changes.
     */
    method HandleCustomWord()
      requires Valid()
      modifies this
      ensures Valid()
      ensures mode == old(mode) && customWordInput == old(customWordInput)
      ensures match ValidateCustomWord(old(customWordInput))
        case Ok(w) =>
          && word == w && guessedLetters == {} && wrongGuesses == 0
          && customWordError == "" && phase == Playing
        case Err(e) =>
          && customWordError == ErrorMessage(e)
          && CurrentRound() == old(CurrentRound()) && phase == old(phase)
    {
      match ValidateCustomWord(customWordInput)
      case Err(e) =>
        customWordError := ErrorMessage(e);
      case Ok(cleaned) =>
        word := cleaned;
        guessedLetters := {};
        wrongGuesses := 0;
        customWordError := "";
        phase := Playing;
        NewRoundInv(word);
    }

    /** Back to the menu: every field returns to its initial value. */
    method GoToMenu()
      requires Valid()
      modifies this
      ensures Valid()
      ensures phase == Menu && mode == None
      ensures word == "" && guessedLetters == {} && wrongGuesses == 0
      ensures customWordInput == "" && customWordError == ""
    {
      phase := Menu;
      mode := None;
      word := "";
      guessedLetters := {};
      wrongGuesses := 0;
      customWordInput := "";
      customWordError := "";
      NewRoundInv("");
    }

    /**
     * Play again. In single-player mode a fresh round on a word from the
     * pool; in any other mode back to the word entry, with the old word and
     * guesses kept.
     */
    method PlayAgain(choice: nat)
      requires Valid()
      requires choice < |WORDS|
      modifies this
      ensures Valid()
      ensures mode == old(mode)
      ensures old(mode) == Some(Single) ==>
        && word == RandomWord(choice) && guessedLetters == {} && wrongGuesses == 0
        && phase == old(phase)
        && customWordInput == old(customWordInput) && customWordError == old(customWordError)
      ensures old(mode) != Some(Single) ==>
        && phase == Setup && customWordInput == "" && customWordError == ""
        && CurrentRound() == old(CurrentRound())
    {
      if mode == Some(Single) {
        word := RandomWord(choice);
        guessedLetters := {};
        wrongGuesses := 0;
        NewRoundInv(word);
      } else {
        customWordInput := "";
        customWordError := "";
        phase := Setup;
      }
    }

    /**
     * A guess, as both of its callers make it: a letter A to Z while the
     * round is neither won nor lost.
     */
    method HandleGuess(letter: char)
      requires Valid()
      requires CanGuess(CurrentRound(), letter)
      modifies this
      ensures Valid()
      ensures CurrentRound() == Guess(old(CurrentRound()), letter)
      ensures phase == old(phase) && mode == old(mode)
      ensures customWordInput == old(customWordInput) && customWordError == old(customWordError)
    {
      GuardedGuessKeepsInv(CurrentRound(), letter);
      if letter in guessedLetters {
        return;
      }
      guessedLetters := guessedLetters + {letter};
      if letter !in word {
        wrongGuesses := wrongGuesses + 1;
      }
    }

    /**
     * A key press. It is heard only on the game screen, and becomes a guess
     * when the key is a single letter and the round is neither won nor lost.
     */
    method HandleKeyPress(key: string)
      requires Valid()
      modifies this
      ensures Valid()
      ensures old(phase) == Playing ==> CurrentRound() == PressKey(old(CurrentRound()), key)
      ensures old(phase) != Playing ==> CurrentRound() == old(CurrentRound())
      ensures phase == old(phase) && mode == old(mode)
      ensures customWordInput == old(customWordInput) && customWordError == old(customWordError)
    {
      if phase != Playing {
        return;
      }
      var letter := KeyToLetter(key);
      if letter.Some? {
        if !IsGameOver(wrongGuesses) && !IsWinner(word, guessedLetters) {
          HandleGuess(letter.value);
        }
      }
    }

    /** A click on the button of a letter on the game screen; disabled buttons do nothing. */
    method ClickLetter(letter: char)
      requires Valid()
      requires phase == Playing && IsUpperLetter(letter)
      modifies this
      ensures Valid()
      ensures CurrentRound() == HangmanLogic.ClickLetter(old(CurrentRound()), letter)
      ensures phase == old(phase) && mode == old(mode)
      ensures customWordInput == old(customWordInput) && customWordError == old(customWordError)
    {
      var disabled := letter in guessedLetters || IsGameOver(wrongGuesses) || IsWinner(word, guessedLetters);
      if !disabled {
        HandleGuess(letter);
      }
    }
  }
}
