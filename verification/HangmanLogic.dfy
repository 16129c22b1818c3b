/**
 * The pure part of the Hangman game session: the word pool, the cleaning and
 * validation of a custom word, the effect of one guess on a round, the masked
 * word, the win and loss conditions and the keyboard filter that decides which
 * key presses become guesses.
 */
module HangmanLogic {

  datatype Option<T> = None | Some(value: T)

  datatype Result<T, E> = Ok(value: T) | Err(error: E)

  /** The pool that random words are drawn from. */
  const WORDS: seq<string> := [
    "JAVASCRIPT", "REACT", "PROGRAMMING", "DEVELOPER", "COMPUTER",
    "ALGORITHM", "DATABASE", "FUNCTION", "VARIABLE", "COMPONENT",
    "WEBSITE", "BROWSER", "KEYBOARD", "SOFTWARE", "HANGMAN"
  ]

  /** A round is lost once this many wrong guesses have been made. */
  const MAX_WRONG_GUESSES: nat := 6

  /** Bounds a custom word must meet after cleaning. */
  const MIN_WORD_LENGTH: nat := 2
  const MAX_WORD_LENGTH: nat := 20

  const TOO_SHORT_MESSAGE: string := "Please enter a word with at least 2 letters"
  const TOO_LONG_MESSAGE: string := "Word must be 20 letters or less"

  predicate IsUpperLetter(c: char) { 'A' <= c <= 'Z' }

  predicate IsLowerLetter(c: char) { 'a' <= c <= 'z' }

  /** Every character is one of A to Z (the empty string included). */
  predicate IsUpperWord(s: string) {
    forall i :: 0 <= i < |s| ==> IsUpperLetter(s[i])
  }

  /** A word that may be played: 2 to 20 letters, all of them A to Z. */
  predicate IsSecretWord(s: string) {
    MIN_WORD_LENGTH <= |s| <= MAX_WORD_LENGTH && IsUpperWord(s)
  }

  // ---------------------------------------------------------------------
  // Word pool
  // ---------------------------------------------------------------------

  /**
   * The word at position `choice` of the pool. The source draws the index
   * with a random number generator; here it is a parameter.
   */
  function RandomWord(choice: nat): (w: string)
    requires choice < |WORDS|
    ensures w in WORDS
    ensures IsSecretWord(w)
  {
    PoolIsPlayable();
    WORDS[choice]
  }

  /** Every word of the pool satisfies the word invariant. */
  lemma PoolIsPlayable()
    ensures forall i :: 0 <= i < |WORDS| ==> IsSecretWord(WORDS[i])
  {
  }

  // ---------------------------------------------------------------------
  // Upper-casing and cleaning of a custom word
  // ---------------------------------------------------------------------

  /** ASCII upper-casing of one character; every other character is kept. */
  function UpperChar(c: char): (u: char)
    ensures IsUpperLetter(u) <==> IsUpperLetter(c) || IsLowerLetter(c)
    ensures !IsLowerLetter(c) ==> u == c
    ensures IsLowerLetter(c) ==> u as int - c as int == 'A' as int - 'a' as int
  {
    if IsLowerLetter(c) then (c as int - 'a' as int + 'A' as int) as char else c
  }

  /** Upper-casing of a string, character by character. */
  function ToUpper(s: string): (u: string)
    ensures |u| == |s|
    ensures forall i :: 0 <= i < |s| ==> u[i] == UpperChar(s[i])
  {
    if s == [] then [] else [UpperChar(s[0])] + ToUpper(s[1..])
  }

  /** Removes every character outside A to Z, keeping the order of the rest. */
  function KeepLetters(s: string): (r: string)
    ensures IsUpperWord(r)
    ensures |r| <= |s|
  {
    if s == [] then []
    else (if IsUpperLetter(s[0]) then [s[0]] else []) + KeepLetters(s[1..])
  }

  /** The cleaned custom word: upper-cased, then stripped of everything but A to Z. */
  function Clean(input: string): (w: string)
    ensures IsUpperWord(w)
    ensures |w| <= |input|
  {
    KeepLetters(ToUpper(input))
  }

  /** Filtering distributes over concatenation, so it keeps the order of the letters. */
  lemma {:induction false} KeepLettersAppend(a: string, b: string)
    ensures KeepLetters(a + b) == KeepLetters(a) + KeepLetters(b)
  {
    if a == [] {
      assert a + b == b;
    } else {
      assert (a + b)[0] == a[0];
      assert (a + b)[1..] == a[1..] + b;
      KeepLettersAppend(a[1..], b);
    }
  }

  /** Filtering keeps every occurrence of every letter A to Z and nothing else. */
  lemma {:induction false} KeepLettersCounts(s: string, c: char)
    ensures multiset(KeepLetters(s))[c] == if IsUpperLetter(c) then multiset(s)[c] else 0
  {
    if s != [] {
      KeepLettersCounts(s[1..], c);
      assert s == [s[0]] + s[1..];
      assert multiset(s) == multiset([s[0]]) + multiset(s[1..]);
    }
  }

  /** A word made of A to Z only passes the filter unchanged. */
  lemma {:induction false} KeepLettersOfUpperWord(s: string)
    requires IsUpperWord(s)
    ensures KeepLetters(s) == s
  {
    if s != [] {
      assert IsUpperWord(s[1..]) by {
        forall i | 0 <= i < |s[1..]| ensures IsUpperLetter(s[1..][i]) {
          assert s[1..][i] == s[i + 1];
        }
      }
      KeepLettersOfUpperWord(s[1..]);
      assert s == [s[0]] + s[1..];
    }
  }

  /** Cleaning leaves an upper-case word unchanged. */
  lemma CleanOfUpperWord(w: string)
    requires IsUpperWord(w)
    ensures Clean(w) == w
  {
    assert ToUpper(w) == w;
    KeepLettersOfUpperWord(w);
  }

  /** Cleaning twice is cleaning once. */
  lemma CleanIdempotent(input: string)
    ensures Clean(Clean(input)) == Clean(input)
  {
    CleanOfUpperWord(Clean(input));
  }

  /**
   * The cleaned word holds each letter A to Z exactly as often as the
   * upper-cased input does, and nothing else.
   */
  lemma CleanCounts(input: string, c: char)
    ensures multiset(Clean(input))[c] == if IsUpperLetter(c) then multiset(ToUpper(input))[c] else 0
  {
  }

  // ---------------------------------------------------------------------
  // Validation of a custom word
  // ---------------------------------------------------------------------

  datatype ValidationError = TooShort | TooLong

  /** The text shown for a rejected custom word. */
  function ErrorMessage(e: ValidationError): (m: string)
    ensures m != ""
  {
    match e
    case TooShort => TOO_SHORT_MESSAGE
    case TooLong => TOO_LONG_MESSAGE
  }

  /**
   * The outcome of submitting `input` as the secret word: the cleaned word
   * when it has 2 to 20 letters, else the reason it was refused.
   */
  function ValidateCustomWord(input: string): (r: Result<string, ValidationError>)
    ensures r.Ok? <==> MIN_WORD_LENGTH <= |Clean(input)| <= MAX_WORD_LENGTH
    ensures r.Ok? ==> r.value == Clean(input) && IsSecretWord(r.value)
    ensures r == Err(TooShort) <==> |Clean(input)| < MIN_WORD_LENGTH
    ensures r == Err(TooLong) <==> |Clean(input)| > MAX_WORD_LENGTH
  {
    var cleaned := Clean(input);
    if |cleaned| < MIN_WORD_LENGTH then Err(TooShort)
    else if |cleaned| > MAX_WORD_LENGTH then Err(TooLong)
    else Ok(cleaned)
  }

  /**
   * Under the ASCII upper-casing of this model, an input of at most 20
   * characters can never be refused as too long.
   */
  lemma ShortInputIsNeverTooLong(input: string)
    requires |input| <= MAX_WORD_LENGTH
    ensures ValidateCustomWord(input) != Err(TooLong)
  {
  }

  /** An accepted word, submitted again, is accepted as itself. */
  lemma ValidatedWordRoundTrip(input: string)
    requires ValidateCustomWord(input).Ok?
    ensures ValidateCustomWord(ValidateCustomWord(input).value) == ValidateCustomWord(input)
  {
    CleanIdempotent(input);
  }

  // ---------------------------------------------------------------------
  // Rounds and guesses
  // ---------------------------------------------------------------------

  /** The data of one round: the secret word, the letters guessed, the wrong-guess counter. */
  datatype Round = Round(word: string, guessed: set<char>, wrong: nat)

  /** The round every start of play creates: no letters guessed, no wrong guesses. */
  function NewRound(word: string): Round {
    Round(word, {}, 0)
  }

  /** The guessed letters that do not occur in the word. */
  function WrongLetters(word: string, guessed: set<char>): set<char> {
    set c | c in guessed && c !in word
  }

  /** Won: the word is non-empty and each of its letters has been guessed. */
  predicate IsWinner(word: string, guessed: set<char>) {
    |word| > 0 && forall i :: 0 <= i < |word| ==> word[i] in guessed
  }

  /** Lost: at least MAX_WRONG_GUESSES wrong guesses. */
  predicate IsGameOver(wrong: nat) {
    wrong >= MAX_WRONG_GUESSES
  }

  /**
   * One guess. A letter already guessed changes nothing; any other letter
   * joins the guessed set and, when it is absent from the word, counts as
   * one more wrong guess.
   */
  function Guess(r: Round, letter: char): (r': Round)
    ensures r'.word == r.word
    ensures r.guessed <= r'.guessed <= r.guessed + {letter}
    ensures r.wrong <= r'.wrong <= r.wrong + 1
  {
    if letter in r.guessed then r
    else Round(r.word, r.guessed + {letter}, if letter in r.word then r.wrong else r.wrong + 1)
  }

  /** What keeps a round consistent while it is played. */
  ghost predicate RoundInv(r: Round) {
    && IsUpperWord(r.word)
    && (forall c :: c in r.guessed ==> IsUpperLetter(c))
    && r.wrong == |WrongLetters(r.word, r.guessed)|
    && r.wrong <= MAX_WRONG_GUESSES
    && !(IsWinner(r.word, r.guessed) && IsGameOver(r.wrong))
  }

  /** The guard on a guess: a single letter A to Z while the round is neither won nor lost. */
  predicate CanGuess(r: Round, letter: char) {
    IsUpperLetter(letter) && !IsGameOver(r.wrong) && !IsWinner(r.word, r.guessed)
  }

  /** A fresh round on an upper-case word is consistent, and neither won nor lost. */
  lemma NewRoundInv(word: string)
    requires IsUpperWord(word)
    ensures RoundInv(NewRound(word))
    ensures !IsWinner(word, {}) && !IsGameOver(0)
  {
    assert WrongLetters(word, {}) == {};
    var none: set<char> := {};
    if |word| > 0 {
      assert word[0] !in none;
      assert !IsWinner(word, none);
    }
  }

  /** Guessing a letter a second time changes nothing. */
  lemma GuessIdempotent(r: Round, letter: char)
    ensures Guess(Guess(r, letter), letter) == Guess(r, letter)
    ensures letter in r.guessed ==> Guess(r, letter) == r
  {
  }

  /**
   * A novel guess adds exactly that letter to the guessed set, keeps the
   * word, and raises the counter by one exactly when the letter is absent.
   */
  lemma NovelGuess(r: Round, letter: char)
    requires letter !in r.guessed
    ensures Guess(r, letter).word == r.word
    ensures Guess(r, letter).guessed == r.guessed + {letter}
    ensures Guess(r, letter).wrong == r.wrong + 1 <==> letter !in r.word
    ensures Guess(r, letter).wrong == r.wrong <==> letter in r.word
  {
  }

  /** A guess keeps the counter equal to the number of guessed letters absent from the word. */
  lemma GuessKeepsTally(r: Round, letter: char)
    requires r.wrong == |WrongLetters(r.word, r.guessed)|
    ensures Guess(r, letter).wrong == |WrongLetters(r.word, Guess(r, letter).guessed)|
  {
    if letter !in r.guessed {
      var before := WrongLetters(r.word, r.guessed);
      var after := WrongLetters(r.word, r.guessed + {letter});
      if letter in r.word {
        assert after == before;
      } else {
        assert after == before + {letter};
        assert letter !in before;
      }
    }
  }

  /**
   * A guess that passes the guard keeps the round consistent: the counter
   * stays equal to the tally of wrong letters and at most 6, and the round
   * does not become won and lost at once.
   */
  lemma GuardedGuessKeepsInv(r: Round, letter: char)
    requires RoundInv(r)
    requires CanGuess(r, letter)
    ensures RoundInv(Guess(r, letter))
  {
    GuessKeepsTally(r, letter);
  }

  // ---------------------------------------------------------------------
  // Masked word
  // ---------------------------------------------------------------------

  /** What one letter of the word shows: itself once guessed, else an underscore. */
  function Slot(c: char, guessed: set<char>): char {
    if c in guessed then c else '_'
  }

  /** The characters of `slots` with one space between neighbours. */
  function JoinWithSpaces(slots: string): (r: string)
    ensures |slots| == 0 ==> r == []
    ensures |slots| > 0 ==> |r| == 2 * |slots| - 1
  {
    if |slots| <= 1 then slots else [slots[0], ' '] + JoinWithSpaces(slots[1..])
  }

  /** The word as shown to the guesser. */
  function MaskedWord(word: string, guessed: set<char>): (m: string)
    ensures |word| == 0 ==> m == []
    ensures |word| > 0 ==> |m| == 2 * |word| - 1
  {
    JoinWithSpaces(seq(|word|, i requires 0 <= i < |word| => Slot(word[i], guessed)))
  }

  /** Position 2k of the joined string is slot k and position 2k+1 is a space. */
  lemma {:induction false} JoinWithSpacesAt(slots: string, k: nat)
    requires k < |slots|
    ensures JoinWithSpaces(slots)[2 * k] == slots[k]
    ensures k + 1 < |slots| ==> JoinWithSpaces(slots)[2 * k + 1] == ' '
  {
    if |slots| > 1 {
      var rest := JoinWithSpaces(slots[1..]);
      assert JoinWithSpaces(slots) == [slots[0], ' '] + rest;
      if k > 0 {
        JoinWithSpacesAt(slots[1..], k - 1);
        assert JoinWithSpaces(slots)[2 * k] == rest[2 * (k - 1)];
      }
    }
  }

  /** Every character of the joined string is a slot or a space. */
  lemma {:induction false} JoinWithSpacesChars(slots: string, c: char)
    ensures c in JoinWithSpaces(slots) ==> c in slots || c == ' '
    ensures c in slots ==> c in JoinWithSpaces(slots)
  {
    if |slots| > 1 {
      JoinWithSpacesChars(slots[1..], c);
      assert JoinWithSpaces(slots) == [slots[0], ' '] + JoinWithSpaces(slots[1..]);
      assert slots == [slots[0]] + slots[1..];
    }
  }

  /**
   * The masked word has one slot per letter, with single spaces between
   * them: slot k, at position 2k, is the letter if it has been guessed and
   * an underscore otherwise.
   */
  lemma MaskedWordAt(word: string, guessed: set<char>, k: nat)
    requires k < |word|
    ensures |MaskedWord(word, guessed)| == 2 * |word| - 1
    ensures MaskedWord(word, guessed)[2 * k] == (if word[k] in guessed then word[k] else '_')
    ensures k + 1 < |word| ==> MaskedWord(word, guessed)[2 * k + 1] == ' '
  {
    JoinWithSpacesAt(seq(|word|, i requires 0 <= i < |word| => Slot(word[i], guessed)), k);
  }

  /**
   * For a word of letters A to Z, the round is won exactly when the word is
   * non-empty and its masked form shows no underscore.
   */
  lemma WonIffFullyRevealed(word: string, guessed: set<char>)
    requires IsUpperWord(word)
    ensures IsWinner(word, guessed) <==> |word| > 0 && '_' !in MaskedWord(word, guessed)
  {
    var slots := seq(|word|, i requires 0 <= i < |word| => Slot(word[i], guessed));
    assert MaskedWord(word, guessed) == JoinWithSpaces(slots);
    JoinWithSpacesChars(slots, '_');
    if IsWinner(word, guessed) {
      forall k | 0 <= k < |slots| ensures slots[k] != '_' {
        assert slots[k] == word[k];
      }
    } else if |word| > 0 {
      var k :| 0 <= k < |word| && word[k] !in guessed;
      assert slots[k] == '_';
    }
  }

  // ---------------------------------------------------------------------
  // Keyboard input and the guard
  // ---------------------------------------------------------------------

  /**
   * The letter a key press stands for: the key's name upper-cased, if it is
   * a single character from A to Z.
   */
  function KeyToLetter(key: string): (r: Option<char>)
    ensures r.Some? <==> |key| == 1 && (IsUpperLetter(key[0]) || IsLowerLetter(key[0]))
    ensures r.Some? ==> IsUpperLetter(r.value) && r.value == UpperChar(key[0])
  {
    var upper := ToUpper(key);
    if |upper| == 1 && IsUpperLetter(upper[0]) then Some(upper[0]) else None
  }

  /** A key press on the game screen: a guess when the filter and the guard let it through. */
  function PressKey(r: Round, key: string): (r': Round)
    ensures r'.word == r.word
    ensures r.guessed <= r'.guessed
    ensures KeyToLetter(key).None? ==> r' == r
    ensures IsWinner(r.word, r.guessed) || IsGameOver(r.wrong) ==> r' == r
  {
    match KeyToLetter(key)
    case Some(letter) => if CanGuess(r, letter) then Guess(r, letter) else r
    case None => r
  }

  /** A letter button is enabled unless the letter was guessed or the round is over. */
  predicate ButtonEnabled(r: Round, letter: char) {
    !(letter in r.guessed || IsGameOver(r.wrong) || IsWinner(r.word, r.guessed))
  }

  /** A click on the button of a letter A to Z. */
  function ClickLetter(r: Round, letter: char): Round
    requires IsUpperLetter(letter)
  {
    if ButtonEnabled(r, letter) then Guess(r, letter) else r
  }

  /** Key presses one after another. */
  function PressKeys(r: Round, keys: seq<string>): (r': Round)
    ensures r'.word == r.word
    ensures r.guessed <= r'.guessed
    ensures r.wrong <= r'.wrong
    decreases |keys|
  {
    if keys == [] then r else PressKeys(PressKey(r, keys[0]), keys[1..])
  }

  /** Pressing a letter key, in either case, and clicking its button have the same effect. */
  lemma KeyAndButtonAgree(r: Round, letter: char)
    requires IsUpperLetter(letter)
    ensures PressKey(r, [letter]) == ClickLetter(r, letter)
    ensures PressKey(r, [(letter as int - 'A' as int + 'a' as int) as char]) == ClickLetter(r, letter)
  {
  }

  /** Once the round is won or lost, key presses change nothing. */
  lemma ResolvedRoundIgnoresKeys(r: Round, keys: seq<string>)
    requires IsWinner(r.word, r.guessed) || IsGameOver(r.wrong)
    ensures PressKeys(r, keys) == r
    decreases |keys|
  {
  }

  /** Every sequence of key presses keeps a consistent round consistent. */
  lemma {:induction false} PressKeysKeepsInv(r: Round, keys: seq<string>)
    requires RoundInv(r)
    ensures RoundInv(PressKeys(r, keys))
    decreases |keys|
  {
    if keys != [] {
      var key := KeyToLetter(keys[0]);
      if key.Some? && CanGuess(r, key.value) {
        GuardedGuessKeepsInv(r, key.value);
      }
      PressKeysKeepsInv(PressKey(r, keys[0]), keys[1..]);
    }
  }

  /**
   * Whatever keys are pressed after a round starts, the wrong-guess counter
   * equals the number of guessed letters absent from the word, never exceeds
   * 6, and won and lost never hold together.
   */
  lemma RoundTally(word: string, keys: seq<string>)
    requires IsUpperWord(word)
    ensures var r := PressKeys(NewRound(word), keys);
      && r.word == word
      && r.wrong == |WrongLetters(word, r.guessed)|
      && r.wrong <= MAX_WRONG_GUESSES
      && !(IsWinner(word, r.guessed) && IsGameOver(r.wrong))
  {
    NewRoundInv(word);
    PressKeysKeepsInv(NewRound(word), keys);
  }
}
