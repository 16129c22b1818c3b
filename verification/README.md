# Hangman game session — a Dafny model

This project models the game logic of a browser Hangman game. All of it lives
in one React component, `src/components/Hangman.jsx`, and the model covers:

- the fixed word pool and the wrong-guess limit of 6;
- how a custom word typed by player 1 is cleaned and validated;
- the effect of one guess on a round;
- the masked word shown to the guesser, and the win and loss conditions;
- the keyboard filter and the guard that decide which key presses and button
  clicks become guesses;
- the session state machine. Its phases are menu, setup (player 1 enters a
  word) and playing. Each event handler becomes one method.

Files:

- `HangmanLogic.dfy` holds the pure part: functions and the lemmas about them.
  - A round is a value `Round(word, guessed, wrong)`.
  - `Guess` is one call of the guess handler.
  - `PressKey` and `ClickLetter` are the two guarded ways a guess is made.
  - `RoundInv` is the invariant every guarded guess keeps. It says:
    - the counter equals the number of guessed letters absent from the word;
    - the counter is at most 6;
    - the round is never won and lost at once.
- `HangmanSession.dfy` holds the class `Session`. Its fields are the
  component's state: phase, mode, custom-word input and error text, word,
  guessed letters and wrong-guess counter.
  - There is one method per handler. Each states the whole new state and keeps
    `Valid()`.
  - `Valid()` is `RoundInv` of the current round, plus: while the game screen
    is shown, the word has 2 to 20 letters A–Z.
- `HangmanScenarios.dfy` holds concrete plays as lemmas (the word CAT guessed
  letter by letter, six misses on DOG, custom-word examples). It also has two
  client methods that drive a `Session` through a two-player and a
  single-player game.

Random word choice is a parameter `choice < |WORDS|`: the index that the
source computes from `Math.random`.

Facts about `Hangman.jsx` that the model keeps as they are:

- Auto-generating a word starts play at once.
- Starting two-player mode clears only the word entry and its error. The
  previous word, guesses and counter stay in place.
- In multi-player mode (and with no mode), "play again" returns to setup and
  keeps the old round.
- The key listener is active only on the game screen (line 128). No other
  handler checks the phase: the screens decide which ones can be reached.
  The model's methods are total, except where a caller's own check is
  stated as a precondition.

## Model

| member | source | states |
|---|---|---|
| HangmanLogic.RandomWord | src/components/Hangman.jsx:37-39 | for every index into the pool, the result is a word of the pool with 2 to 20 letters, all A–Z |
| HangmanLogic.PoolIsPlayable | src/components/Hangman.jsx:4-20 | every word of the fixed pool has 2 to 20 letters, all A–Z |
| HangmanLogic.UpperChar | src/components/Hangman.jsx:64 | upper-casing gives a letter A–Z exactly for inputs a–z or A–Z; other characters are unchanged; a–z moves to A–Z |
| HangmanLogic.ToUpper | src/components/Hangman.jsx:64 | upper-casing keeps the length and upper-cases each position |
| HangmanLogic.KeepLetters | src/components/Hangman.jsx:64 | removing everything outside A–Z leaves only A–Z and never lengthens the string |
| HangmanLogic.Clean | src/components/Hangman.jsx:64 | the cleaned custom word contains only A–Z and is no longer than the input |
| HangmanLogic.KeepLettersAppend | src/components/Hangman.jsx:64 | the filter distributes over concatenation, so it keeps the letters' order |
| HangmanLogic.KeepLettersCounts | src/components/Hangman.jsx:64 | the filter keeps every occurrence of each letter A–Z and drops every other character |
| HangmanLogic.KeepLettersOfUpperWord | src/components/Hangman.jsx:64 | a string of A–Z passes the filter unchanged |
| HangmanLogic.CleanOfUpperWord | src/components/Hangman.jsx:64 | cleaning leaves an upper-case word unchanged |
| HangmanLogic.CleanIdempotent | src/components/Hangman.jsx:64 | cleaning twice equals cleaning once |
| HangmanLogic.CleanCounts | src/components/Hangman.jsx:64 | the cleaned word holds each letter A–Z as often as the upper-cased input, and nothing else |
| HangmanLogic.ErrorMessage | src/components/Hangman.jsx:66-74 | each rejection has a non-empty message, so the error paragraph is shown |
| HangmanLogic.ValidateCustomWord | src/components/Hangman.jsx:63-81 | accepted iff the cleaned word has 2 to 20 letters, and then it is the cleaned word; too short iff fewer than 2 letters; too long iff more than 20 |
| HangmanLogic.ShortInputIsNeverTooLong | src/components/Hangman.jsx:71-74 | under ASCII upper-casing, an input of at most 20 characters is never refused as too long |
| HangmanLogic.ValidatedWordRoundTrip | src/components/Hangman.jsx:64-80 | submitting an accepted word again gives the same result |
| HangmanLogic.Guess | src/components/Hangman.jsx:106-114 | one guess keeps the word, adds at most the guessed letter and raises the counter by at most one; `GuessIdempotent`, `NovelGuess` and `GuessKeepsTally` give its exact effect |
| HangmanLogic.IsWinner | src/components/Hangman.jsx:121 | definition of won: the word is non-empty and each of its letters is guessed; `WonIffFullyRevealed` ties it to the masked word |
| HangmanLogic.IsGameOver | src/components/Hangman.jsx:122 | definition of lost: at least 6 wrong guesses; `GuardedGuessKeepsInv` and `RoundTally` show the counter never passes 6 |
| HangmanLogic.NewRoundInv | src/components/Hangman.jsx:44-45 | a fresh round with no guesses and a count of 0 is consistent, and neither won nor lost |
| HangmanLogic.GuessIdempotent | src/components/Hangman.jsx:107 | guessing a letter already guessed changes nothing; guessing twice equals guessing once |
| HangmanLogic.NovelGuess | src/components/Hangman.jsx:109-113 | a novel guess adds exactly that letter and keeps the word; the count rises by one iff the letter is absent from the word, and stays put iff it is present |
| HangmanLogic.GuessKeepsTally | src/components/Hangman.jsx:106-114 | a guess keeps the counter equal to the number of guessed letters absent from the word |
| HangmanLogic.GuardedGuessKeepsInv | src/components/Hangman.jsx:121-134 | a guess made while neither won nor lost keeps the tally, keeps the counter at most 6, and never makes the round won and lost at once |
| HangmanLogic.JoinWithSpaces | src/components/Hangman.jsx:119 | joining n slots gives 2n-1 characters (none for no slots) |
| HangmanLogic.JoinWithSpacesAt | src/components/Hangman.jsx:119 | position 2k of the joined string is slot k; position 2k+1 is a space |
| HangmanLogic.JoinWithSpacesChars | src/components/Hangman.jsx:119 | the joined string consists of the slots and spaces, and contains every slot |
| HangmanLogic.MaskedWord | src/components/Hangman.jsx:116-119 | the masked word is empty for the empty word and has 2n-1 characters for a word of n letters; `MaskedWordAt` gives every position |
| HangmanLogic.MaskedWordAt | src/components/Hangman.jsx:116-119 | the masked word has one slot per letter, separated by single spaces; slot k shows letter k if it is guessed and `_` otherwise |
| HangmanLogic.WonIffFullyRevealed | src/components/Hangman.jsx:121 | won iff the word is non-empty and its masked form shows no `_` |
| HangmanLogic.KeyToLetter | src/components/Hangman.jsx:131-132 | a key counts as a letter iff its name is one character from a–z or A–Z, and the letter is its upper-case form |
| HangmanLogic.CanGuess | src/components/Hangman.jsx:131-133 | definition of the guard: a letter A–Z while the round is neither won nor lost; `GuardedGuessKeepsInv` shows what it protects |
| HangmanLogic.PressKey | src/components/Hangman.jsx:130-136 | a key press keeps the word and never removes a guessed letter; a key that is not a letter, or any key once the round is won or lost, changes nothing |
| HangmanLogic.ButtonEnabled | src/components/Hangman.jsx:305 | definition of an enabled button: the letter is not yet guessed and the round is neither won nor lost; `KeyAndButtonAgree` relates it to the key path |
| HangmanLogic.ClickLetter | src/components/Hangman.jsx:304-305 | a click guesses the letter when its button is enabled and does nothing otherwise; `KeyAndButtonAgree` shows it equals pressing that letter's key |
| HangmanLogic.PressKeys | src/components/Hangman.jsx:130-136 | key presses keep the word, never remove a guessed letter and never lower the counter |
| HangmanLogic.KeyAndButtonAgree | src/components/Hangman.jsx:304-305 | pressing a letter key, in either case, has the same effect as clicking that letter's button |
| HangmanLogic.ResolvedRoundIgnoresKeys | src/components/Hangman.jsx:133-135 | once a round is won or lost, no key press changes it |
| HangmanLogic.PressKeysKeepsInv | src/components/Hangman.jsx:130-136 | every sequence of key presses keeps a consistent round consistent |
| HangmanLogic.RoundTally | src/components/Hangman.jsx:106-134 | after any key presses in a fresh round: the word is the same, the counter equals the number of guessed letters absent from it and is at most 6, and won and lost never hold together |
| HangmanSession.Session.constructor | src/components/Hangman.jsx:26-35 | the initial state: menu, no mode, empty input, error and word, no guesses, count 0 |
| HangmanSession.Session.StartSinglePlayer | src/components/Hangman.jsx:41-47 | mode single, a word from the pool, no guesses, count 0, phase playing; input and error unchanged |
| HangmanSession.Session.StartMultiPlayer | src/components/Hangman.jsx:49-54 | mode multi, input and error cleared, phase setup; word, guesses and count unchanged |
| HangmanSession.Session.EditCustomWord | src/components/Hangman.jsx:195-198 | the input takes the typed value and the error is cleared; nothing else changes |
| HangmanSession.Session.HandleAutoGenerate | src/components/Hangman.jsx:56-61 | a word from the pool, no guesses, count 0, phase playing; mode, input and error unchanged |
| HangmanSession.Session.HandleCustomWord | src/components/Hangman.jsx:63-81 | on success: the cleaned word, no guesses, count 0, error cleared, phase playing. On a refusal: only the error text changes, to that refusal's message |
| HangmanSession.Session.GoToMenu | src/components/Hangman.jsx:83-91 | phase menu, no mode, empty word, no guesses, count 0, empty input and error |
| HangmanSession.Session.PlayAgain | src/components/Hangman.jsx:93-104 | single player: a word from the pool, no guesses and count 0, with phase, input and error unchanged. Otherwise: phase setup, input and error cleared, round kept |
| HangmanSession.Session.HandleGuess | src/components/Hangman.jsx:106-114 | the round becomes `Guess` of the old round; phase, mode, input and error unchanged; the session invariant is kept |
| HangmanSession.Session.HandleKeyPress | src/components/Hangman.jsx:127-141 | on the game screen the round becomes `PressKey` of the old one; on other screens nothing changes |
| HangmanSession.Session.ClickLetter | src/components/Hangman.jsx:300-312 | an enabled button guesses its letter; a disabled one (letter guessed, round won or lost) does nothing |
| HangmanScenarios.CustomWordPunctuated | src/components/Hangman.jsx:64-80 | `abc!123` is accepted as `ABC` |
| HangmanScenarios.CustomWordTooShort | src/components/Hangman.jsx:66-69 | `a` is refused as too short |
| HangmanScenarios.CustomWordTooLong | src/components/Hangman.jsx:71-74 | 21 letters are refused as too long |
| HangmanScenarios.CatMasks | src/components/Hangman.jsx:116-119 | guessing C, A, T on CAT shows `_ _ _`, `C _ _`, `C A _`, `C A T` |
| HangmanScenarios.CatKeys | src/components/Hangman.jsx:106-134 | pressing C, A, T on CAT wins with no wrong guess, and the round is won only after the third key |
| HangmanScenarios.DogSixMisses | src/components/Hangman.jsx:122-134 | six misses on DOG give a count of 6 and a lost round; a seventh key press is ignored |

## Left out

- Rendering is left out: the JSX, the SVG gallows (lines 240–277), CSS, the password input and button styling.
- The end-of-game message texts (lines 288–298) are display text only.
- The `useEffect` that registers and removes the key listener (lines 127–141) is not modelled as such. What remains is its effect: key presses are heard only on the game screen, plus the filter and the guard.
- `Math.random` (line 38) is replaced by an arbitrary index into the pool.
- React's batching of state updates and its stale-closure behaviour are left out. Each handler is one atomic step over the fields.
- The `disabled={!customWordInput.trim()}` rule on the "Use This Word" button (line 214) is left out. It is interface gating, and the Enter key bypasses it.
- The `maxLength={20}` limit on the input (line 205) is left out, because it is enforced by the browser. `EditCustomWord` accepts any string, so the too-long refusal is reachable in the model. In the source it is reachable even under that limit: twenty `ß` fit in the field, upper-case to forty letters and are refused as too long.
- HangmanLogic.UpperChar: upper-casing is ASCII only. JavaScript's `toUpperCase` also maps a few non-ASCII characters to letters A–Z: `ß` to `SS`, dotless `ı` to `I`, long `ſ` to `S`, and ligatures such as `ﬁ` to `FI`. So `Clean` drops characters the source would keep, and `KeyToLetter` rejects such keys. Full Unicode case mapping is not modelled.
- HangmanLogic.KeyToLetter: ASCII only. The keys `ı` and `ſ`, which the source upper-cases to `I` and `S` and then guesses, are ignored by the model.
- HangmanLogic.ToUpper: its "keeps the length" holds only under ASCII upper-casing. JavaScript's `toUpperCase` can lengthen a string (`ß` → `SS`, `ﬃ` → `FFI`).
- HangmanLogic.Clean: its "no longer than the input" holds only under ASCII upper-casing, for the same reason.
- HangmanLogic.ShortInputIsNeverTooLong: holds only under ASCII upper-casing. In the source, an input of at most 20 characters can still clean to more than 20 letters and be refused as too long (twenty `ß`).
- JavaScript strings count UTF-16 code units, while Dafny's `string` counts characters. This differs only for characters outside the Basic Multilingual Plane, none of which is a letter A–Z.
- HangmanSession.Session.HandleGuess: it requires the guard (a letter A–Z, round neither won nor lost). The handler has no such check itself, but both of its callers apply it: the key listener (lines 132–133) and the enabled letter buttons (line 305).
- HangmanSession.Session.ClickLetter: it requires the game screen and a letter A–Z, because the buttons exist only there and only for the alphabet (lines 124, 300–312).
