# Dictionary game engine, modelled in Dafny

The dictionary game hides a target word drawn from an English or an Italian
word list. The player types guesses. Each guess that misses counts as a round and
narrows an alphabetical range `{start, end}` around the target: a guess that sorts
before the target becomes the start, one that sorts after it becomes the end. The
game is won when a guess, lower-cased and trimmed, equals the target. It is lost
when the round count reaches the round limit.

This project models the engine that runs the game, the `useGame` composable. Its
state is the `GameState` record (target word, language, round count, round limit,
guess history, range, status) plus the pending input `currentGuess`.

- `text.dfy` (module `Text`) holds the normalisation applied to a typed guess.
  It models the ASCII behaviour of JavaScript's `toLowerCase()` and `trim()`.
  It proves what trimming keeps and drops, that normalising twice is normalising
  once, and that a non-blank input normalises to a non-empty, trimmed,
  lower-case word.
- `lex_order.dfy` (module `LexOrder`) holds `LexLess`, the order JavaScript's
  `<` and `>` put on strings, which the range rule uses. It proves this is a
  strict total order extending the prefix order.
- `game_model.dfy` (module `GameModel`) holds the state as values.
  - Every action is a function from the state before to the state after.
  - `Step` and `Run` apply one action or a sequence of actions.
  - `Inv` is the invariant the engine keeps.
- `game_properties.dfy` (module `GameProperties`) proves what the engine
  promises:
  - each action's effect, including its silent no-ops;
  - the directional range rule;
  - that every action, and so every sequence of actions, keeps `Inv`;
  - that a finished game stays finished until a new game starts;
  - that a game with limit `n` is lost after `n` missed guesses;
  - two worked games.
- `game_engine.dfy` (module `GameEngine`) holds class `Game`. Its fields are
  the state, and its methods change them in place as the composable does.
  - Each public action (`StartNewGame`, `SubmitGuess`, `ResetGame`,
    `SetLanguage`, `SetMaxRounds`, `AddLetter`, `DeleteLetter`,
    `ClearGuess`) and the constructor are proved to leave the fields exactly
    as the matching `GameModel` function says, and to keep `Valid()`, which
    is `GameModel.Inv` of the fields.
  - `Win` and `Miss` are the two branches of `submitGuess()` after its guard,
    and `UpdateGameRange` is the range update it calls. `Win` and `Miss` have
    no `GameModel` function of their own; `UpdateGameRange` follows
    `GameModel.UpdateGameRange`. None of the three requires or ensures
    `Valid()`. Each states its whole new state in terms of the old one, and
    `SubmitGuess` combines them and restores `Valid()`.
  - The views `wordsArray`, `isGameOver` and `remainingRounds` are functions
    of the class that evaluate the matching `GameModel` view on the fields.

Two inputs the composable takes from outside are parameters here:

- The word lists are a `WordLists` value given to the constructor.
- The random draw is a natural number `pick`. The target is the word at index
  `pick % |words|`, so every word of the list can be drawn.

In four places the code does less than one might expect, and the model
follows the code:

- One would expect the round count never to exceed the limit. But
  `setMaxRounds` changes only the limit, so lowering it below the rounds
  already played leaves an open game with more rounds played than allowed
  (`SetMaxRoundsMayExceedLimit`). The bound holds over sequences of actions
  that do not change the limit (`RunKeepsWithinLimit`).
- One would expect each new bound to be at least as tight as the last. But
  the code overwrites the bound on the guess's side of the target, so a guess
  farther from the target widens the range (`RangeCanWiden`).
- One would expect the end sentinel of each language to sort after every
  word of its list. The Italian sentinel `"zona"` sorts before Italian words
  such as `"zucchero"`, so the range contains the target only when the target
  lies between the sentinels (`RangeBracketsTarget`).
- One would expect a round limit of at least one. The code accepts any
  number, so `maxRounds` is an `int` here.

## Model

| member | source | states |
|---|---|---|
| GameEngine.Game.constructor | dictionary-game/src/composables/useGame.ts:8-22 | The engine starts from the initial record and immediately starts an English game with 20 rounds, as the composable does on creation; the new state satisfies the invariant. |
| GameEngine.Game.WordsArray | dictionary-game/src/composables/useGame.ts:25-27 | The list of the current language, which contains the current target. |
| GameEngine.Game.IsGameOver | dictionary-game/src/composables/useGame.ts:29-31 | The game is over exactly when the status is not `playing`; a finished game has at least one guess, and while the game is open no guess equals the target. |
| GameEngine.Game.RemainingRounds | dictionary-game/src/composables/useGame.ts:33-35 | The rounds left are the limit minus the guesses made, a winning guess not counting as a round. |
| GameEngine.Game.StartNewGame | dictionary-game/src/composables/useGame.ts:42-54 | Sets the language and limit, draws the target from that language's list, and resets the round count, history, status and input. The range becomes `a` to `zyzzyva` in English or `a` to `zona` in Italian. The invariant holds afterwards. |
| GameEngine.Game.SubmitGuess | dictionary-game/src/composables/useGame.ts:56-82 | The fields change exactly as `GameModel.SubmitGuess` says, and the invariant is kept. |
| GameEngine.Game.Win | dictionary-game/src/composables/useGame.ts:62-67 | A winning guess sets the status to won, appends the guess to the history and clears the input; nothing else changes. |
| GameEngine.Game.Miss | dictionary-game/src/composables/useGame.ts:69-81 | A non-winning guess is appended and counts one round. The range is updated. The game is lost once the round count reaches the limit. The input is cleared. |
| GameEngine.Game.UpdateGameRange | dictionary-game/src/composables/useGame.ts:84-94 | Only the range changes, and it changes by the directional rule against the current target. |
| GameEngine.Game.ResetGame | dictionary-game/src/composables/useGame.ts:96-98 | A new game with the same language and limit, reopened as playing. |
| GameEngine.Game.SetLanguage | dictionary-game/src/composables/useGame.ts:100-103 | A new game in the chosen language with the same limit. |
| GameEngine.Game.SetMaxRounds | dictionary-game/src/composables/useGame.ts:105-107 | Only the limit changes; a finished game stays finished and the invariant is kept. |
| GameEngine.Game.AddLetter | dictionary-game/src/composables/useGame.ts:110-113 | While the game is open the argument is appended to the input verbatim; once it is over nothing changes. |
| GameEngine.Game.DeleteLetter | dictionary-game/src/composables/useGame.ts:115-118 | While the game is open the last character of the input is dropped, and an empty input stays empty; once it is over nothing changes. |
| GameEngine.Game.ClearGuess | dictionary-game/src/composables/useGame.ts:120-122 | Empties the input whatever the status; nothing else changes. |
| GameProperties.StartNewGameValid | dictionary-game/src/composables/useGame.ts:42-54 | A new game's target is a word of the chosen list. Its language and limit are the ones asked for. No round is played and the history is empty. The range holds the two sentinels. The status is `playing`, the input is empty, all rounds remain and the invariant holds. |
| GameProperties.UpdateGameRangeDirectional | dictionary-game/src/composables/useGame.ts:84-94 | For a guess other than the target, exactly one bound moves to the guess: the start when the guess sorts before the target, the end when it sorts after, and the other bound stays; both directions of the if-and-only-if. |
| GameProperties.RangeCanWiden | dictionary-game/src/composables/useGame.ts:87-89 | A guess below the current start still replaces it, so the start can move away from the target. |
| GameProperties.RangeBracketsTarget | dictionary-game/src/composables/useGame.ts:48-51 | In every state satisfying the invariant whose target lies between its language's sentinels, start <= target <= end. |
| GameProperties.SubmitGuessNoOpIff | dictionary-game/src/composables/useGame.ts:57 | `submitGuess()` leaves the state unchanged if and only if the trimmed input is empty or the game is over. |
| GameProperties.SubmitGuessWin | dictionary-game/src/composables/useGame.ts:62-67 | A winning guess ends the game as won, appends the target to the history and clears the input. It does not count a round, and the range, target, limit and language are unchanged. |
| GameProperties.SubmitGuessMiss | dictionary-game/src/composables/useGame.ts:69-81 | A non-winning guess appends exactly the normalised guess, a non-empty trimmed lower-case word, and counts exactly one round. One fewer round remains. The game is lost if and only if the count reaches the limit, and playing otherwise. Exactly one bound moves to the guess, and the input is cleared. |
| GameProperties.SubmitGuessWordMiss | dictionary-game/src/composables/useGame.ts:56-82 | An input that already is a lower-case trimmed word other than the target is recorded verbatim as a round. |
| GameProperties.RecordWinKeepsInv | dictionary-game/src/composables/useGame.ts:63-64 | Recording the winning guess keeps the invariant. |
| GameProperties.WinKeepsInv | dictionary-game/src/composables/useGame.ts:62-67 | A winning `submitGuess()` keeps the invariant. |
| GameProperties.RecordMissKeepsInv | dictionary-game/src/composables/useGame.ts:70-79 | Recording a non-winning guess as a round keeps the invariant, including that each bound is a sentinel or a guess on its side of the target. |
| GameProperties.MissKeepsInv | dictionary-game/src/composables/useGame.ts:69-81 | A non-winning `submitGuess()` keeps the invariant. |
| GameProperties.SubmitGuessKeepsInv | dictionary-game/src/composables/useGame.ts:56-82 | `submitGuess()` keeps the invariant in every case. |
| GameProperties.AddLetterAppends | dictionary-game/src/composables/useGame.ts:110-113 | `addLetter` appends its argument verbatim while the game is open, and does nothing once it is over; only the input can change. |
| GameProperties.DeleteLetterDrops | dictionary-game/src/composables/useGame.ts:115-118 | `deleteLetter` removes exactly the last character while the game is open. An empty input stays empty, a finished game is untouched, and only the input can change. |
| GameProperties.DeleteUndoesAddLetter | dictionary-game/src/composables/useGame.ts:110-118 | While the game is open, deleting a letter undoes typing it. |
| GameProperties.ClearGuessEmpties | dictionary-game/src/composables/useGame.ts:120-122 | `clearGuess` empties the input in every state and changes nothing else, and is idempotent. |
| GameProperties.StepKeepsInv | dictionary-game/src/composables/useGame.ts:42-122 | Every action keeps the invariant. |
| GameProperties.StepStatusTransitions | dictionary-game/src/composables/useGame.ts:96-107 | Only `playing` can move to `won` or `lost`. Only a new game (started, reset or by changing language) reopens a game, and it always does. Target and language change only with a new game. |
| GameProperties.RunKeepsInv | dictionary-game/src/composables/useGame.ts:42-122 | After any sequence of actions the invariant holds. In particular, the history is as long as the round count, plus one once the game is won. |
| GameProperties.FinishedGameIsFrozen | dictionary-game/src/composables/useGame.ts:57 | Once a game is won or lost, no sequence of actions without a new game changes its status, target, language, rounds, history or range. |
| GameProperties.RunKeepsWithinLimit | dictionary-game/src/composables/useGame.ts:76-79 | With a limit of at least one that no action changes, a lost game has played exactly the limit. An open or won game has rounds left. The round count never exceeds the limit. |
| GameProperties.SetMaxRoundsMayExceedLimit | dictionary-game/src/composables/useGame.ts:105-107 | Lowering the limit to any value below the rounds played leaves an open game open, with more rounds played than allowed and negative remaining rounds; the next non-blank miss then loses it. |
| GameProperties.TypeMiss | dictionary-game/src/composables/useGame.ts:69-81 | Typing a non-winning word into an empty input and submitting it plays one round and loses exactly on the last allowed round. |
| GameProperties.MissesUseRounds | dictionary-game/src/composables/useGame.ts:69-81 | Typing and submitting `k` non-winning words plays exactly `k` rounds and records `k` guesses. The game is lost exactly when the last allowed round is played. |
| GameProperties.RoundLimitEndsGame | dictionary-game/src/composables/useGame.ts:76-79 | A new game with limit `n >= 1` followed by `n` non-winning guesses is lost with `n` rounds played and `n` guesses recorded. |
| GameProperties.CatGameFirstMiss | dictionary-game/src/composables/useGame.ts:90-92 | Against target "cat", "dog" becomes the end of the range and counts round 1. |
| GameProperties.CatGameSecondMiss | dictionary-game/src/composables/useGame.ts:87-89 | "ant" then becomes the start and counts round 2. |
| GameProperties.CatGameThirdMiss | dictionary-game/src/composables/useGame.ts:76-79 | "bee" replaces "ant" as the start; it is round 3 of 3, so the game is lost. |
| GameProperties.ScenarioThreeMisses | dictionary-game/src/composables/useGame.ts:56-94 | A game with limit 3 and target "cat" goes through the three ranges and round counts above and ends lost with history dog, ant, bee. |
| GameProperties.TrimSpacedCat | dictionary-game/src/composables/useGame.ts:59 | `" cat ".trim()` is `"cat"`. |
| GameProperties.NormaliseSpacedCat | dictionary-game/src/composables/useGame.ts:57-59 | `" Cat "` is not blank and normalises to `"cat"`. |
| GameProperties.ScenarioWin | dictionary-game/src/composables/useGame.ts:56-67 | With target "cat", typing `" Cat "` and submitting wins at once, records "cat", plays no round and clears the input. |
| Text.LowerChar | dictionary-game/src/composables/useGame.ts:59 | Upper-case ASCII letters map to their lower-case partner (code plus 32); every other character is unchanged; no upper-case letter results. |
| Text.ToLower | dictionary-game/src/composables/useGame.ts:59 | `toLowerCase()` keeps the length, lowers each character, and leaves no upper-case letter. |
| Text.TrimStartSpec | dictionary-game/src/composables/useGame.ts:59 | Dropping leading whitespace leaves a suffix that does not start with whitespace, and everything dropped is whitespace. |
| Text.TrimEndSpec | dictionary-game/src/composables/useGame.ts:59 | Dropping trailing whitespace leaves a prefix that does not end with whitespace, and everything dropped is whitespace. |
| Text.TrimIsSlice | dictionary-game/src/composables/useGame.ts:59 | `trim()` returns a contiguous slice of its input. |
| Text.TrimIsTrimmed | dictionary-game/src/composables/useGame.ts:59 | `trim()` returns a string that neither starts nor ends with whitespace. |
| Text.TrimDropsOnlySpace | dictionary-game/src/composables/useGame.ts:59 | Everything `trim()` drops on either side is whitespace. |
| Text.TrimStartAllSpace | dictionary-game/src/composables/useGame.ts:57 | Dropping leading whitespace empties a string exactly when it is all whitespace. |
| Text.TrimEmptyIffBlank | dictionary-game/src/composables/useGame.ts:57 | `trim()` yields the empty string if and only if the input is all whitespace, which is the blank-input test of `submitGuess()`. |
| Text.LowerCharKeepsSpace | dictionary-game/src/composables/useGame.ts:59 | Lower-casing neither creates nor removes whitespace. |
| Text.TrimOfTrimmed | dictionary-game/src/composables/useGame.ts:59 | Trimming a trimmed string changes nothing. |
| Text.ToLowerOfLower | dictionary-game/src/composables/useGame.ts:59 | Lower-casing a string with no upper-case letter changes nothing. |
| Text.NormaliseEmptyIffTrimEmpty | dictionary-game/src/composables/useGame.ts:57-59 | The blank test on the raw input (line 57) agrees with the emptiness of the normalised guess (line 59), so no empty guess is ever recorded. |
| Text.TrimKeepsLower | dictionary-game/src/composables/useGame.ts:59 | Trimming keeps a string free of upper-case letters. |
| Text.GuessWordIsNormal | dictionary-game/src/composables/useGame.ts:59 | A non-empty, trimmed, lower-case word is its own normal form. |
| Text.NormaliseGivesGuessWord | dictionary-game/src/composables/useGame.ts:57-59 | Every non-blank input normalises to a non-empty, trimmed, lower-case word. |
| Text.NormaliseIdempotent | dictionary-game/src/composables/useGame.ts:59 | Normalising twice is normalising once. |
| GameModel.WordsArray | dictionary-game/src/composables/useGame.ts:25-27 | The `wordsArray` view on the state record: the list of the given language. |
| GameModel.IsGameOver | dictionary-game/src/composables/useGame.ts:29-31 | The `isGameOver` view: the status is not `playing`. |
| GameModel.RemainingRounds | dictionary-game/src/composables/useGame.ts:33-35 | The `remainingRounds` view: the limit less the rounds played. |
| GameModel.EndSentinel | dictionary-game/src/composables/useGame.ts:48-51 | The upper end of a fresh range: `zyzzyva` for English, `zona` for Italian. |
| GameModel.StartNewGame | dictionary-game/src/composables/useGame.ts:42-54 | `startNewGame` as a function of the word lists, language, limit and draw; what it establishes is proved in `StartNewGameValid`. |
| GameModel.SubmitGuess | dictionary-game/src/composables/useGame.ts:56-82 | `submitGuess()` as a function of the state: the guard, the win branch and the miss branch; proved about in `SubmitGuessNoOpIff`, `SubmitGuessWin`, `SubmitGuessMiss` and `SubmitGuessKeepsInv`. |
| GameModel.UpdateGameRange | dictionary-game/src/composables/useGame.ts:84-94 | The range rule as a function of range, guess and target; proved directional in `UpdateGameRangeDirectional`. |
| GameModel.ResetGame | dictionary-game/src/composables/useGame.ts:96-98 | `resetGame()`: a new game with the state's language and limit. |
| GameModel.SetLanguage | dictionary-game/src/composables/useGame.ts:100-103 | `setLanguage(language)`: a new game in that language with the state's limit. |
| GameModel.SetMaxRounds | dictionary-game/src/composables/useGame.ts:105-107 | `setMaxRounds(rounds)`: the state with only the limit replaced. |
| GameModel.AddLetter | dictionary-game/src/composables/useGame.ts:110-113 | `addLetter(letter)`; proved about in `AddLetterAppends` and `DeleteUndoesAddLetter`. |
| GameModel.DeleteLetter | dictionary-game/src/composables/useGame.ts:115-118 | `deleteLetter()` with the `slice(0, -1)` behaviour on an empty input; proved about in `DeleteLetterDrops`. |
| GameModel.ClearGuess | dictionary-game/src/composables/useGame.ts:120-122 | `clearGuess()`; proved about in `ClearGuessEmpties`. |
| GameModel.Inv | dictionary-game/src/composables/useGame.ts:42-94 | What every reachable state satisfies: the target is in the language's list, the history is the round count long plus one once won, no round guessed the target and a won game's last guess did, a lost game has played a round, every guess is a non-empty trimmed lower-case word, and each bound is a sentinel or a guess on its side of the target; kept by every action (`StepKeepsInv`, `RunKeepsInv`). |
| Text.IsSpace | dictionary-game/src/composables/useGame.ts:59 | The ASCII whitespace `trim()` removes: tab, line feed, vertical tab, form feed, carriage return and space. |
| Text.TrimStart | dictionary-game/src/composables/useGame.ts:59 | The leading half of `trim()`; never longer than its input, characterised in `TrimStartSpec`. |
| Text.TrimEnd | dictionary-game/src/composables/useGame.ts:59 | The trailing half of `trim()`; never longer than its input, characterised in `TrimEndSpec`. |
| Text.Trim | dictionary-game/src/composables/useGame.ts:57 | `trim()`, as used by the blank-input test; never longer than its input, characterised in `TrimIsSlice`, `TrimIsTrimmed` and `TrimDropsOnlySpace`. |
| Text.Normalise | dictionary-game/src/composables/useGame.ts:59 | `currentGuess.toLowerCase().trim()`; proved idempotent and to yield a guess word in `NormaliseIdempotent` and `NormaliseGivesGuessWord`. |
| LexOrder.LexLess | dictionary-game/src/composables/useGame.ts:87-90 | JavaScript's `<` on strings: character by character, a proper prefix first; proved a strict total order by the lemmas below. |
| LexOrder.LexLessIrreflexive | dictionary-game/src/composables/useGame.ts:87-90 | No string sorts before itself. |
| LexOrder.LexLessAsymmetric | dictionary-game/src/composables/useGame.ts:87-90 | If `a < b` then not `b < a`. |
| LexOrder.LexLessTransitive | dictionary-game/src/composables/useGame.ts:87-90 | `<` on strings is transitive. |
| LexOrder.LexLessTotal | dictionary-game/src/composables/useGame.ts:87-90 | Two different strings are ordered one way or the other, so the equal-to-target branch is reached only by the target itself. |
| LexOrder.Trichotomy | dictionary-game/src/composables/useGame.ts:87-90 | Exactly one of `a < b`, `a == b`, `a > b` holds. |
| LexOrder.PrefixIsLess | dictionary-game/src/composables/useGame.ts:87-90 | A proper prefix sorts before the longer string. |

## Left out

- Vue reactivity (`reactive`, `ref`, `computed`) is not modelled. The state is
  plain fields of class `Game`, and the computed views are functions.
- `Math.random` is not modelled; the draw is the parameter `pick` (see above).
- The word-list data modules are not part of this model; the lists are a
  parameter. Both lists must be non-empty, because the source would draw
  `undefined` from an empty list.
- `toLowerCase()` and `trim()` are modelled for ASCII only: ASCII letters are
  lowered, and tab, line feed, vertical tab, form feed, carriage return and
  space are trimmed. Unicode case mapping and Unicode whitespace are not modelled.
- GameModel.DeleteLetter: the model's strings hold whole characters, while
  JavaScript strings hold UTF-16 code units. Deleting a character outside the
  Basic Multilingual Plane drops the whole character, whereas `slice(0, -1)`
  leaves its first surrogate behind; lone surrogates cannot be represented.
- GameEngine.Game.DeleteLetter: the same difference, since it follows
  GameModel.DeleteLetter.
- LexOrder.LexLess compares Dafny characters; it agrees with JavaScript's
  UTF-16 code-unit order for characters in the Basic Multilingual Plane only.
- The `isLoading` field of the state is never read or written by the engine
  and is not modelled.
- `KEYBOARD_LAYOUTS` and `GameSettings` are presentation constants with no
  behaviour and are not modelled.
- `maxRounds` is an unbounded integer. JavaScript numbers that are not integers
  (fractions, `NaN`, infinities) are not modelled.
- GameProperties.RangeBracketsTarget: requires the target to lie between its
  language's sentinels, because the word lists are not part of this model and
  the Italian sentinel does not bound every Italian word.
- GameProperties.RunKeepsWithinLimit: holds only for action sequences without
  `setMaxRounds` and with new games of limit at least one, because the code
  enforces neither.
- GameProperties.MissesUseRounds: requires an empty input and enough rounds
  left for all the words; a game that ends early is covered by TypeMiss.
