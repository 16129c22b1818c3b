/**
 * Concrete plays of the game, stated as lemmas over the pure model and as
 * client methods that drive a session through its handlers.
 */
module HangmanScenarios {
  import opened HangmanLogic
  import opened HangmanSession

  /** A single letter key stands for that letter. */
  lemma LetterKey(r: Round, c: char)
    requires IsUpperLetter(c)
    ensures PressKey(r, [c]) == if CanGuess(r, c) then Guess(r, c) else r
  {
  }

  /** Key presses that step through the rounds `rounds`, one key per step, end in the last of them. */
  lemma {:induction false} PressKeysThrough(rounds: seq<Round>, keys: seq<string>)
    requires |rounds| == |keys| + 1
    requires forall i :: 0 <= i < |keys| ==> PressKey(rounds[i], keys[i]) == rounds[i + 1]
    ensures PressKeys(rounds[0], keys) == rounds[|keys|]
    decreases |keys|
  {
    if keys != [] {
      PressKeysThrough(rounds[1..], keys[1..]);
    }
  }

  /** Lower-case letters are folded and punctuation and digits are dropped. */
  lemma CustomWordPunctuated()
    ensures ValidateCustomWord("abc!123") == Ok("ABC")
  {
    assert UpperChar('a') == 'A' && UpperChar('b') == 'B' && UpperChar('c') == 'C';
    assert ToUpper("abc!123") == "ABC!123";
    assert KeepLetters("ABC!123") == "ABC";
  }

  /** A single letter is too short. */
  lemma CustomWordTooShort()
    ensures ValidateCustomWord("a") == Err(TooShort)
  {
  }

  /**
   * Twenty-one letters are too long. The word is a parameter fixed by the
   * precondition, not a literal in the postcondition: on a literal the
   * verifier evaluates the cleaning letter by letter, and 21 letters exceed
   * its resource limit.
   */
  lemma CustomWordTooLong(input: string)
    requires input == "ABCDEFGHIJKLMNOPQRSTU"
    ensures ValidateCustomWord(input) == Err(TooLong)
  {
    CleanOfUpperWord(input);
  }

  /** The masked form of a three-letter word. */
  lemma MaskedThree(word: string, g: set<char>)
    requires |word| == 3
    ensures MaskedWord(word, g) == [Slot(word[0], g), ' ', Slot(word[1], g), ' ', Slot(word[2], g)]
  {
    var slots := seq(|word|, i requires 0 <= i < |word| => Slot(word[i], g));
    assert slots == [Slot(word[0], g), Slot(word[1], g), Slot(word[2], g)];
    assert slots[1..] == [Slot(word[1], g), Slot(word[2], g)];
    assert slots[1..][1..] == [Slot(word[2], g)];
    assert JoinWithSpaces(slots[1..][1..]) == [Slot(word[2], g)];
    assert JoinWithSpaces(slots[1..]) == [Slot(word[1], g), ' ', Slot(word[2], g)];
  }

  /** Guessing C, A, T on the word CAT reveals it letter by letter. */
  lemma CatMasks()
    ensures MaskedWord("CAT", {}) == "_ _ _"
    ensures MaskedWord("CAT", {'C'}) == "C _ _"
    ensures MaskedWord("CAT", {'C', 'A'}) == "C A _"
    ensures MaskedWord("CAT", {'C', 'A', 'T'}) == "C A T"
  {
    MaskedThree("CAT", {});
    MaskedThree("CAT", {'C'});
    MaskedThree("CAT", {'C', 'A'});
    MaskedThree("CAT", {'C', 'A', 'T'});
  }

  /** Pressing C, A, T on the word CAT wins with no wrong guess, and only at the third key. */
  lemma CatKeys()
    ensures PressKeys(NewRound("CAT"), ["C", "A", "T"]) == Round("CAT", {'C', 'A', 'T'}, 0)
    ensures !IsWinner("CAT", {'C'}) && !IsWinner("CAT", {'C', 'A'})
    ensures IsWinner("CAT", {'C', 'A', 'T'})
  {
    assert "CAT"[1] !in {'C'} && "CAT"[2] !in {'C', 'A'};
    LetterKey(NewRound("CAT"), 'C');
    LetterKey(Round("CAT", {'C'}, 0), 'A');
    LetterKey(Round("CAT", {'C', 'A'}, 0), 'T');
    PressKeysThrough(
      [NewRound("CAT"), Round("CAT", {'C'}, 0), Round("CAT", {'C', 'A'}, 0), Round("CAT", {'C', 'A', 'T'}, 0)],
      ["C", "A", "T"]);
  }

  /** A miss on DOG: the letter joins the guesses and the counter goes up by one. */
  lemma DogMiss(g: set<char>, n: nat, c: char)
    requires IsUpperLetter(c) && c !in g && c !in "DOG" && 'D' !in g && n < MAX_WRONG_GUESSES
    ensures PressKey(Round("DOG", g, n), [c]) == Round("DOG", g + {c}, n + 1)
  {
    LetterKey(Round("DOG", g, n), c);
    assert "DOG"[0] !in g;
  }

  /** Six misses on DOG, one key at a time. */
  lemma DogMissSteps()
    ensures PressKey(NewRound("DOG"), "X") == Round("DOG", {'X'}, 1)
    ensures PressKey(Round("DOG", {'X'}, 1), "Y") == Round("DOG", {'X', 'Y'}, 2)
    ensures PressKey(Round("DOG", {'X', 'Y'}, 2), "Z") == Round("DOG", {'X', 'Y', 'Z'}, 3)
    ensures PressKey(Round("DOG", {'X', 'Y', 'Z'}, 3), "Q") == Round("DOG", {'X', 'Y', 'Z', 'Q'}, 4)
    ensures PressKey(Round("DOG", {'X', 'Y', 'Z', 'Q'}, 4), "W") == Round("DOG", {'X', 'Y', 'Z', 'Q', 'W'}, 5)
    ensures PressKey(Round("DOG", {'X', 'Y', 'Z', 'Q', 'W'}, 5), "E") == Round("DOG", {'X', 'Y', 'Z', 'Q', 'W', 'E'}, 6)
  {
    DogMiss({}, 0, 'X');
    DogMiss({'X'}, 1, 'Y');
    DogMiss({'X', 'Y'}, 2, 'Z');
    DogMiss({'X', 'Y', 'Z'}, 3, 'Q');
    DogMiss({'X', 'Y', 'Z', 'Q'}, 4, 'W');
    DogMiss({'X', 'Y', 'Z', 'Q', 'W'}, 5, 'E');
  }

  /** Six misses on DOG lose the round, and a seventh key press is ignored. */
  lemma DogSixMisses()
    ensures PressKeys(NewRound("DOG"), ["X", "Y", "Z", "Q", "W", "E"]) == Round("DOG", {'X', 'Y', 'Z', 'Q', 'W', 'E'}, 6)
    ensures IsGameOver(6)
    ensures PressKey(Round("DOG", {'X', 'Y', 'Z', 'Q', 'W', 'E'}, 6), "R") == Round("DOG", {'X', 'Y', 'Z', 'Q', 'W', 'E'}, 6)
  {
    DogMissSteps();
    PressKeysThrough(
      [NewRound("DOG"), Round("DOG", {'X'}, 1), Round("DOG", {'X', 'Y'}, 2), Round("DOG", {'X', 'Y', 'Z'}, 3),
       Round("DOG", {'X', 'Y', 'Z', 'Q'}, 4), Round("DOG", {'X', 'Y', 'Z', 'Q', 'W'}, 5),
       Round("DOG", {'X', 'Y', 'Z', 'Q', 'W', 'E'}, 6)],
      ["X", "Y", "Z", "Q", "W", "E"]);
    LetterKey(Round("DOG", {'X', 'Y', 'Z', 'Q', 'W', 'E'}, 6), 'R');
  }

  /**
   * Two players: player 1 first types something with too few letters, then
   * a good word; player 2 misses once, repeats the miss, presses a key that
   * is not a letter; playing again goes back to the word entry rather than
   * to a new game, and the menu clears everything.
   */
  method TwoPlayerRound(typo: string, entry: string, miss: char)
    requires ValidateCustomWord(typo) == Err(TooShort)
    requires ValidateCustomWord(entry).Ok?
    requires IsUpperLetter(miss) && miss !in Clean(entry)
  {
    var s := new Session();
    s.StartMultiPlayer();
    assert s.phase == Setup && s.mode == Some(Multi);
    s.EditCustomWord(typo);
    s.HandleCustomWord();
    assert s.phase == Setup && s.customWordError == TOO_SHORT_MESSAGE;
    s.EditCustomWord(entry);
    assert s.customWordError == "";
    s.HandleCustomWord();
    assert s.phase == Playing && s.word == Clean(entry) && s.wrongGuesses == 0;
    NewRoundInv(s.word);
    s.ClickLetter(miss);
    assert s.wrongGuesses == 1 && s.guessedLetters == {miss};
    s.ClickLetter(miss);
    assert s.wrongGuesses == 1;
    s.HandleKeyPress("Enter");
    assert s.guessedLetters == {miss};
    s.PlayAgain(0);
    assert s.phase == Setup && s.word == Clean(entry) && s.guessedLetters == {miss};
    s.GoToMenu();
    assert s.phase == Menu && s.word == "" && s.mode == None && s.wrongGuesses == 0;
  }

  /** Single player: playing again stays on the game screen with a fresh round. */
  method SinglePlayerReplay(first: nat, second: nat, key: string)
    requires first < |WORDS| && second < |WORDS|
  {
    var s := new Session();
    s.StartSinglePlayer(first);
    assert s.phase == Playing && s.word == WORDS[first];
    s.HandleKeyPress(key);
    s.PlayAgain(second);
    assert s.phase == Playing && s.mode == Some(Single);
    assert s.word == WORDS[second] && s.guessedLetters == {} && s.wrongGuesses == 0;
  }
}
