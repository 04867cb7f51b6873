# Wordle rules engine in Dafny

This project models the rules engine of a Wordle-style game written in TypeScript
(repository `wordle-testing-exam`). The repository holds two independent variants of the
game, and each one is modelled as written:

- the `src/modules` variant: the `checkGuess` letter comparator, the `WordValidationService`
  pipeline, `arraysEqual` (two identical copies), the `WordleGame` session that counts
  remaining attempts, and the `src/entites/Player.ts` player, which keeps win and loss counters
  and one record per game;
- the `src/data` variant: the `WordleGame` session that colours a guess in place in its
  `colorsChecking` array, the `WordleGameValidationService` pipeline over letter arrays, and the
  `src/data/modules/Player.ts` player, which keeps won, lost and played lists and an accumulated
  score.

One Dafny module stands for each source file:

| file | module | source |
|---|---|---|
| `common.dfy` | `Common` | JavaScript built-ins both variants use: `includes`/`indexOf`, a `reduce` sum, defaults for falsy arguments, thrown errors |
| `game_logic_service.dfy` | `GameLogicService` | `src/modules/services/GameLogicService.ts` |
| `word_validator_service.dfy` | `WordValidatorService` | `src/modules/services/WordValidatorService.ts` |
| `wordle_game_validation_service.dfy` | `WordleGameValidationService` | `src/data/services/WordleGameValidationService.ts` |
| `array_utils.dfy` | `ArrayUtils` | `src/modules/utils/ArrayUtils.ts` |
| `utils.dfy` | `Utils` | `src/modules/utils/utils.ts` |
| `entities_player.dfy` | `EntitiesPlayer` | `src/entites/Player.ts` |
| `data_player.dfy` | `DataPlayer` | `src/data/modules/Player.ts` |
| `wordle_game.dfy` | `ModulesWordleGame` | `src/modules/WordleGame.ts` |
| `data_wordle_game.dfy` | `DataWordleGame` | `src/data/modules/WordleGame.ts` |

The comparators loop over arrays and write in place, so they are methods with loops, proved
against specification functions (`GameLogicService.Verdict`, `DataWordleGame.RightPositions`,
`DataWordleGame.Included`). The lemmas prove the game's properties about those functions.
Sessions and players are classes whose methods update fields. Their invariants are
`Valid()` predicates, and every method states its whole new state. A JavaScript array write past
the end grows the array and leaves `undefined` slots; the model writes these as `Color.Hole`.
A call that throws returns `Completion.Throw(message)`.

Where the code and its tests disagree, or the code does something easy to misread, the model
follows the code:

- In `src/modules/WordleGame.ts`, `isValidWord` negates the Promise returned by an `async`
  `validate`. A Promise is truthy, so no check ever fails and loading never rejects a non-empty
  word. The dictionary service is also given `loadDictionaryWords`, but the validator calls
  `loadDictionary`, so that call rejects.
- `play` in `src/modules/WordleGame.ts` passes the attempts *remaining* to `addWin`. A first-try win
  on a five-letter word therefore records 4 attempts, and the average is 4, not 1
  (`ModulesWordleGame.FirstTryWin`).
- `play` in `src/modules/WordleGame.ts` does not validate the guess at all. Because `checkGuess` writes
  past the end for a longer guess, a guess that *starts with* the word also scores all green and
  wins (`GameLogicService.SolvedIff`).
- That session does not stop after a win. Only running out of attempts returns -2.
- In `src/data/modules/WordleGame.ts`, playing before a word is loaded resets the colours to an empty
  array. `every` is true on an empty array, so the first valid guess wins and later plays are
  refused (`DataWordleGame.PlayBeforeLoad`).
- An invalid guess in the data variant throws after the colours were reset to gray. The
  attempt is not counted, but the colours did change.
- In the data variant, the won and lost lists hold the player's guess, not the word to guess. For a
  lost game the two differ (`DataWordleGame.LostGamesLogTheGuesses`).
- The two players keep their streak counters by different rules:
  - the `src/entites` player adds one for a win whose previous record is a win, and a loss
    leaves the counter as it is;
  - the `src/data` player adds one when an attempt count equals the previous one, and sets the
    counter to 0 when it differs, whether the game was won or lost.
- Both variants check a word's length against the constant 5 (`exactlen` in
  `src/modules/services/WordValidatorService.ts:10` and
  `src/data/services/WordleGameValidationService.ts:6`), never against the length of the loaded word.
- `tests/wordValidatorService.test.ts` (lines 11 and 26) names the rules `exactLen` and
  `onlyLetters`. The rules object defines `exactlen` and `onlyletters`, so there the rule is
  `undefined`, and calling it (`src/modules/services/WordValidatorService.ts:32`) throws a
  `TypeError`. `tests/wordValidator.test.ts` uses the names the source defines, and so does the
  model.

## Model

| member | source | states |
|---|---|---|
| GameLogicService.CheckGuess | src/modules/services/GameLogicService.ts:6-30 | the array returned is `Verdict(guess, word)`, the colours the two passes leave within the array's JavaScript length |
| GameLogicService.MarkRightPositions | src/modules/services/GameLogicService.ts:11-18 | after the first loop, exactly the positions where the letters match are green and their word letters are crossed out; every other slot and letter is as initialised |
| GameLogicService.MarkWrongPositions | src/modules/services/GameLogicService.ts:20-27 | after the second loop, colours, crossed-out letters and length are those of the yellow pass run from the first loop's state |
| GameLogicService.YellowPass | src/modules/services/GameLogicService.ts:21-27 | the yellow pass keeps the number of slots and letters, and the JavaScript length only grows and stays within the slots |
| GameLogicService.VerdictShape | src/modules/services/GameLogicService.ts:7-29 | the result is at least as long as the word, exactly as long when the guess is not longer, and every position within the word is gray, green or yellow |
| GameLogicService.GreenExactlyOnMatch | src/modules/services/GameLogicService.ts:12-22 | a position is green if and only if the guess and the word hold the same letter there, so the yellow pass never overwrites green |
| GameLogicService.YellowMeansPresentElsewhere | src/modules/services/GameLogicService.ts:21-26 | a yellow position lies within the guess, does not match, and its letter occurs in the word |
| GameLogicService.AbsentLetterIsGray | src/modules/services/GameLogicService.ts:7-27 | a guess letter the word does not contain stays gray |
| GameLogicService.DuplicateLetterBound | src/modules/services/GameLogicService.ts:12-27 | for every letter, the green and yellow positions holding it number at most its occurrences in the word |
| GameLogicService.UnmarkedMeansUsedUp | src/modules/services/GameLogicService.ts:20-27 | the converse of the yellow rule: a guess position left neither green nor yellow holds a letter whose every occurrence in the word is already marked at other positions |
| GameLogicService.MarkedIsMin | src/modules/services/GameLogicService.ts:12-27 | for every letter, the green and yellow positions holding it number exactly the smaller of its counts in the guess and in the word |
| GameLogicService.YellowPassIdle | src/modules/services/GameLogicService.ts:21-27 | once every word letter is crossed out, the yellow pass changes nothing |
| GameLogicService.SolvedIff | src/modules/services/GameLogicService.ts:6-30 | the result equals the all-green array of the word's length if and only if the guess starts with the word |
| GameLogicService.SelfIsAllGreen | src/modules/services/GameLogicService.ts:12-18 | for equal lengths, the result is all green if and only if the guess is the word |
| GameLogicService.Vector | src/modules/services/GameLogicService.ts:7-27 | when every position either matches or holds a letter absent from the word, the result is green at the matches and gray elsewhere |
| GameLogicService.RightWordVector | tests/gameLogic.test.ts:5-15 | `pomme` against `pomme` is all green |
| GameLogicService.OneOffVector | tests/gameLogic.test.ts:17-27 | `tuile` against `huile` is gray then four greens |
| GameLogicService.DisjointVector | tests/gameLogic.test.ts:29-39 | `caler` against `puits` is all gray |
| GameLogicService.DuplicateVector | tests/gameLogic.test.ts:41-51 | `pomme` against `femme` is two grays then three greens |
| WordValidatorService.FirstFailing | src/modules/services/WordValidatorService.ts:31-35 | the index of the first rule that fails: every earlier rule holds, and the rule there fails |
| WordValidatorService.WordValidationService.constructor | src/modules/services/WordValidatorService.ts:22-24 | a service keeps its rules and its dictionary supplier, with an empty dictionary |
| WordValidatorService.WordValidationService.Validate | src/modules/services/WordValidatorService.ts:26-37 | a supplier with `loadDictionary` replaces the dictionary; one without it makes the call reject; otherwise the result is true exactly when every rule holds, and the loop stops at the first failing rule |
| WordValidatorService.InDictionaryWithoutSource | src/modules/services/WordValidatorService.ts:23-29 | without a supplier the dictionary stays empty, so the dictionary rule fails for every word |
| WordValidatorService.EmptyRulesAccept | src/modules/services/WordValidatorService.ts:31-36 | an empty rule list accepts every word |
| WordValidatorService.ValidatorExamples | tests/wordValidator.test.ts:7-51 | `Banane` fails the length rule, `spel5` the letter rule; `Pomme` is in a dictionary holding it and `pomme` is not, case sensitive |
| WordleGameValidationService.FirstFailing | src/data/services/WordleGameValidationService.ts:17-21 | the index of the first rule that fails: every earlier rule holds, and the rule there fails |
| WordleGameValidationService.WordleGameValidationService.constructor | src/data/services/WordleGameValidationService.ts:14 | a service keeps its rule list |
| WordleGameValidationService.WordleGameValidationService.Validate | src/data/services/WordleGameValidationService.ts:16-23 | true if and only if every rule holds, that is, if and only if no rule fails first |
| WordleGameValidationService.RuleExamples | src/data/services/WordleGameValidationService.ts:6-10 | an empty array has only letters and no space; an element of two characters or a space is not a letter; only an element equal to one space counts as a space |
| ArrayUtils.ArraysEqual | src/modules/utils/ArrayUtils.ts:6-16 | true if and only if the arrays are equal; different lengths or a differing index give false |
| Utils.ArraysEqual | src/modules/utils/utils.ts:7-17 | true if and only if the arrays are equal; different lengths or a differing index give false |
| Utils.AgreesWithArrayUtils | src/modules/utils/utils.ts:7-17 | both copies agree on every pair of arrays, and the comparison is symmetric and reflexive |
| Common.IndexOf | src/modules/services/GameLogicService.ts:25 | `indexOf` of an element `includes` found: it is there, and no earlier entry holds it |
| Common.Mean | src/entites/Player.ts:58-61 | the mean of an empty list is 0 |
| Common.MeanWithin | src/data/modules/Player.ts:104-107 | the mean of a non-empty list lies between any lower and any upper bound of its elements |
| Common.SumBounds | src/entites/Player.ts:59 | the `reduce` sum of n elements lies between n times a lower and n times an upper bound |
| EntitiesPlayer.Wins | src/entites/Player.ts:63-66 | the number of won records never exceeds the number of records |
| EntitiesPlayer.Appended | src/entites/Player.ts:63-77 | appending a record adds one win for a won record, and one streak step when the record before it was a win too |
| EntitiesPlayer.AllWon | src/entites/Player.ts:53-56 | the number of wins equals the number of games if and only if every recorded game was won |
| EntitiesPlayer.StreakBelowWins | src/entites/Player.ts:68-71 | the streak counter is 0 without wins and stays below the number of wins |
| EntitiesPlayer.UnbrokenRun | src/entites/Player.ts:68-71 | after n wins in a row the streak counter is n - 1 |
| EntitiesPlayer.Player.constructor | src/entites/Player.ts:16-23 | a new player has zero wins, losses and streak, no records and no attempts, and keeps the name |
| EntitiesPlayer.Player.Score | src/entites/Player.ts:49-51 | 100 per won record minus 50 per lost record, between -50 and 100 times the number of games |
| EntitiesPlayer.Player.WinRate | src/entites/Player.ts:53-56 | between 0 and 100, 0 with no games, and exactly 100 if and only if there are games and all were won |
| EntitiesPlayer.Player.AddWin | src/entites/Player.ts:63-72 | one more win, the attempt and a won record appended, losses unchanged; the streak grows exactly when the previous record is a win |
| EntitiesPlayer.Player.AddLoss | src/entites/Player.ts:74-78 | one more loss, 5 attempts and a lost record appended, wins and streak unchanged |
| EntitiesPlayer.LossThenWin | src/entites/Player.ts:63-78 | a loss followed by a win leaves the streak at 0 |
| EntitiesPlayer.StreakExamples | src/entites/Player.ts:49-72 | a loss, a win, a win: streak 0 after the first win and 1 after the second, score 150, win rate between 66 and 67 |
| DataPlayer.Rate | src/data/modules/Player.ts:110-114 | the win rate is between 0 and 100, is 100 if and only if every played game was won, and is 0 if and only if none was won |
| DataPlayer.Points | src/data/modules/Player.ts:84-102 | a loss earns nothing; a win within the maximum earns at least 100, and exactly 100 + 5 per streak step on the last attempt |
| DataPlayer.RepeatsMeansEqualTail | src/data/modules/Player.ts:54-66 | the counter that `addAttempt` keeps is shorter than the list, and that many trailing attempts equal the last one |
| DataPlayer.Player.constructor | src/data/modules/Player.ts:11-20 | a new player has score, streak and win rate 0 and empty lists, and keeps the name |
| DataPlayer.Player.AddAttempt | src/data/modules/Player.ts:54-66 | the attempt is appended; with a previous attempt the streak grows when the two are equal and is reset to 0 otherwise; the first attempt leaves it unchanged; so a repeated attempt count grows the streak and any other count resets it, win or loss |
| DataPlayer.Player.UpdateScore | src/data/modules/Player.ts:68-70 | the points are added to the score |
| DataPlayer.Player.AddGameWon | src/data/modules/Player.ts:72-76 | the word is appended to the won and played lists, the lost list is unchanged, and played = won + lost still holds |
| DataPlayer.Player.AddGameLost | src/data/modules/Player.ts:78-82 | the word is appended to the lost and played lists, the won list is unchanged, and played = won + lost still holds |
| DataPlayer.Player.ComputeScore | src/data/modules/Player.ts:84-102 | the score grows by the points of the game, nothing on a loss |
| DataPlayer.Player.UpdateWinRate | src/data/modules/Player.ts:110-114 | the win rate becomes won / played * 100, or 0 with no games |
| DataPlayer.Player.IncrementStreaks | src/data/modules/Player.ts:116-118 | the streak grows by one |
| DataPlayer.TwoQuickWins | src/tests/GamePlayerLogicTest.test.ts:27-70 | two first-attempt wins give streak 1, score 140 + 145, win rate 100 and average 1 |
| ModulesWordleGame.WordleGame.constructor | src/modules/WordleGame.ts:22-32 | mode `normal` unless a non-empty one is given, maximum 5 unless a non-zero one is given, as many remaining attempts, nothing loaded, flags false |
| ModulesWordleGame.WordleGame.IsValidWord | src/modules/WordleGame.ts:38-57 | returns true for every word: the three negated Promises never throw |
| ModulesWordleGame.WordleGame.LoadWordle | src/modules/WordleGame.ts:62-71 | an empty word throws "Failed to load wordle" and changes nothing; any other word is loaded and sets the maximum and the remaining attempts to its length |
| ModulesWordleGame.WordleGame.Play | src/modules/WordleGame.ts:77-101 | not loaded: throws and changes nothing; no attempt left: -2, game over, nothing else; otherwise one attempt less, then 1 with a win recorded (with the attempts left) when the guess starts with the word, -1 with a loss recorded when that was the last attempt, and 0 otherwise; the flags only turn true |
| ModulesWordleGame.FirstTryWin | tests/PlayerGameLogic.test.ts:10-136 | a first-try win on `pomme` returns 1 and records 4 attempts: average 4, score 100, win rate 100 |
| ModulesWordleGame.WinFirstTry | src/modules/WordleGame.ts:87-93 | a fresh game won on its first guess records a win with one attempt fewer than the word's length |
| ModulesWordleGame.TwoWinsInARow | tests/PlayerGameLogic.test.ts:97-119 | two wins in a row for one player give 2 wins and streak 1 |
| ModulesWordleGame.SixWrongGuesses | tests/gameState.test.ts:90-128 | wrong guesses at a five-letter word return 0 four times, then -1, then -2, with one loss recorded |
| ModulesWordleGame.PlayBeforeLoad | tests/gameState.test.ts:6-14 | playing before a load throws "Wordle not loaded" |
| ModulesWordleGame.NoValidation | src/modules/WordleGame.ts:62-99 | `p0mme` loads, a four-letter guess only spends an attempt, and a longer guess starting with the word wins |
| DataWordleGame.Put | src/data/modules/WordleGame.ts:114 | a write at index i sets that entry, grows the array to i + 1 when needed with empty slots, and leaves every other entry alone |
| DataWordleGame.MatchEnd | src/data/modules/WordleGame.ts:112-116 | the end of the last match below n: a match there and none between it and n |
| DataWordleGame.RightPassStep | src/data/modules/WordleGame.ts:112-116 | one loop step writes green at position n exactly when the letters match there |
| DataWordleGame.RightPositionsMeaning | src/data/modules/WordleGame.ts:111-117 | with room for the word, the length is kept, the matching positions become green, and every other colour is kept |
| DataWordleGame.IncludedStepInvariant | src/data/modules/WordleGame.ts:133-139 | one step of the search keeps its invariant |
| DataWordleGame.IncludedFromInvariant | src/data/modules/WordleGame.ts:133-139 | the whole search keeps its invariant |
| DataWordleGame.IncludedMeaning | src/data/modules/WordleGame.ts:119-140 | green entries stay green and no entry turns green; every changed entry is a yellow for a non-empty guess letter that the word to guess contains; the array grows only up to the guess length |
| DataWordleGame.YellowsAfterPut | src/data/modules/WordleGame.ts:135 | writing yellow at a non-yellow position marks one more occurrence of the guess letter there |
| DataWordleGame.IncludedStepBalanced | src/data/modules/WordleGame.ts:134-137 | each yellow written uses up one occurrence of that letter in the target copy |
| DataWordleGame.IncludedFromBalanced | src/data/modules/WordleGame.ts:133-139 | over the whole search, yellows added plus letters left in the target copy stay constant per letter |
| DataWordleGame.IncludedYellowBound | src/data/modules/WordleGame.ts:119-140 | per letter, the yellows are at most that letter's count among the non-green target positions |
| DataWordleGame.IncludedIdle | src/data/modules/WordleGame.ts:133-139 | with every target letter used up, the search changes nothing |
| DataWordleGame.VerdictMeaning | src/data/modules/WordleGame.ts:150-153 | after a reset and both passes: green exactly at the matches, yellow only for a non-matching letter the word contains, gray elsewhere within the word |
| DataWordleGame.VerdictYellowBound | src/data/modules/WordleGame.ts:150-153 | per letter, the yellows are at most its count among the unmatched target positions |
| DataWordleGame.UnmarkedMeansUsedUp | src/data/modules/WordleGame.ts:119-140 | the converse of the yellow rule: a non-empty guess letter at a non-matching position left without yellow has every unmatched occurrence in the word to guess marked yellow elsewhere |
| DataWordleGame.VerdictYellowCount | src/data/modules/WordleGame.ts:119-153 | per non-empty letter, the yellows number exactly the smaller of its unmatched counts in the guess and in the word to guess |
| DataWordleGame.OtherGuessVector | src/tests/GameLogicTests.test.ts:25-29 | after the green pass for `tuile`, the yellow pass for `trone` against `pomme` gives gray, gray, yellow, gray, green |
| DataWordleGame.IncludedLettersVector | src/tests/GameLogicTests.test.ts:31-34 | `omise` against `pomme` gives yellow, yellow, gray, gray, green |
| DataWordleGame.DuplicatedLetterVector | src/tests/GameLogicTests.test.ts:36-39 | `emise` against `pomme` gives gray, yellow, gray, gray, green: the `e` matched at the end leaves none for the first `e` |
| DataWordleGame.WonIff | src/data/modules/WordleGame.ts:103-105 | the colours are all green (empty slots, which `every` skips, counting as green) if and only if the guess starts with the word to guess |
| DataWordleGame.ValidWordShape | src/data/modules/WordleGame.ts:31-48 | a word that passes the checks has five single-letter entries |
| DataWordleGame.WonIffValid | src/data/modules/WordleGame.ts:150-157 | for a valid guess and a valid or empty word to guess, the game is won if and only if the word is empty or the guess equals it |
| DataWordleGame.FiveLettersAreValid | src/data/modules/WordleGame.ts:31-48 | five single ASCII letters pass the checks |
| DataWordleGame.WordleGame.constructor | src/data/modules/WordleGame.ts:21-25 | mode `normal` unless a non-empty one is given, the given player or a new "default" one, five gray colours, counter 0, maximum 5, nothing loaded |
| DataWordleGame.WordleGame.IsValidWord | src/data/modules/WordleGame.ts:31-48 | throws the message of the first failing check in the order no space, length 5, letters; returns true exactly for five single-letter entries |
| DataWordleGame.WordleGame.LoadWordle | src/data/modules/WordleGame.ts:50-61 | a missing word fails to load and an invalid one throws its message, both changing nothing; a valid word is loaded and sets the maximum to its length |
| DataWordleGame.WordleGame.AddWordAttempt | src/data/modules/WordleGame.ts:72-74 | the guess is appended to the attempted words |
| DataWordleGame.WordleGame.ResetColorsChecking | src/data/modules/WordleGame.ts:84-86 | one gray per letter of the word to guess |
| DataWordleGame.WordleGame.IncrementCounter | src/data/modules/WordleGame.ts:92-94 | the counter grows by one |
| DataWordleGame.WordleGame.IsWon | src/data/modules/WordleGame.ts:103-105 | true on empty colours, and true exactly when every colour present is green or an empty slot, since `every` skips empty slots |
| DataWordleGame.WordleGame.GetRightLetterRightPosition | src/data/modules/WordleGame.ts:111-117 | the loop leaves `RightPositions` of the old colours |
| DataWordleGame.WordleGame.GetIncludedLettersInWrongPosition | src/data/modules/WordleGame.ts:119-140 | the two loops leave `Included` of the old colours |
| DataWordleGame.WordleGame.Play | src/data/modules/WordleGame.ts:146-172 | after the last attempt or a win: -2 and nothing changes; an invalid guess throws after the reset, counting nothing; a valid guess is coloured, appended and counted, then 1 records a win when it equals the word, -1 records a loss on the last attempt, and 0 leaves the player alone; a recorded game sets the streak by the attempt-count rule of `addAttempt` |
| DataWordleGame.RecordGame | src/data/modules/WordleGame.ts:157-168 | the guess goes to the won or lost list and to the played list, the attempt count is appended, the score grows by the game's points, and the streak grows when the count equals the previous one and is reset to 0 otherwise |
| DataWordleGame.SingleWin | src/tests/GamePlayerLogicTest.test.ts:27-90 | a first-try win returns 1, scores 140, records attempts [1] and the guessed word as won |
| DataWordleGame.PlayWinningGame | src/tests/GamePlayerLogicTest.test.ts:6-9 | a fresh game won on its first guess records attempt 1 and the word as won |
| DataWordleGame.PlayLosingGame | src/tests/GamePlayerLogicTest.test.ts:12-15 | five wrong guesses record the wrong guess as lost |
| DataWordleGame.TwoWins | src/tests/GamePlayerLogicTest.test.ts:34-70 | two first-attempt wins give streak 1 and win rate 100 |
| DataWordleGame.PlaySecondTryGame | src/tests/GamePlayerLogicTest.test.ts:102-104 | a miss then the right word records 2 attempts |
| DataWordleGame.AverageOverThreeGames | src/tests/GamePlayerLogicTest.test.ts:94-107 | attempts 1, 1 and 2, so the average is 4/3 |
| DataWordleGame.LostGamesLogTheGuesses | src/tests/GamePlayerLogicTest.test.ts:111-120 | two lost games list the two wrong guesses |
| DataWordleGame.RefusedAfterFiveAttempts | src/tests/GameStateTest.test.ts:26-49 | five wrong guesses bring the counter to 5 and the sixth play returns -2 |
| DataWordleGame.PlayBeforeLoad | src/data/modules/WordleGame.ts:146-161 | with nothing loaded the first valid guess wins, and after a load every play is refused |
| DataWordleGame.EarlyPlayThenLoad | src/data/modules/WordleGame.ts:146-161 | a play before any load wins and leaves the colours empty; the later load keeps them empty |
| DataWordleGame.HoleCountsAsGreen | src/data/modules/WordleGame.ts:103-117 | a green pass that writes only position 1 into empty colours leaves an empty slot then green; the game reads as won and the next play is refused |
| DataWordleGame.PlayThreeGames | src/tests/GamePlayerLogicTest.test.ts:94-107 | a new player who wins two games at the first attempt and one at the second records attempts 1, 1, 2 |
| DataWordleGame.RejectedWords | src/tests/WordleValidator.test.ts:18-38 | a space is reported first, then a wrong length, then a digit; a missing word fails to load |

## Left out

- Word and dictionary supply (`fetch`, files, random choice, the repositories and `main.ts`) is
  I/O. The word a supplier resolves to is a parameter of `LoadWordle`. A supplier that rejects
  is not modelled.
- `async`/`await` is read as synchronous calls on supplied data. The one place where it changes
  behaviour, the negated Promises of `isValidWord` in `src/modules/WordleGame.ts`, is modelled
  as checks that never fail.
- `ModulesWordleGame.WordleGame.LoadWordle`: a supplier resolving to `null` is not modelled
  separately. It takes the empty-string path, which throws the same error.
- Floating point: win rates and averages are exact `real` values, not IEEE doubles.
- Getters that only return a field are not modelled as members. The fields are read directly.
- The resize branch of data `loadWordle` (a word longer than 5) is unreachable. Such a word
  fails the length check first, so it is left out.
- `ModulesWordleGame.WordleGame` keeps the dictionary it is given, but no code path reads it.
- `DataPlayer.Player.Valid` states played = won + lost as counts, not as a partition of the
  lists.
- `DataWordleGame.Cleared`: the first loop of `getIncludedLettersInWrongPosition` can write past
  the end of the two copies when the colours are longer than a copy. Those extra entries are
  never read, so the model does not grow the copies.
- `resetGame`, used by `tests/gameState.test.ts`, does not exist in the source. No model exists
  for it.
- Console output and the DOM are not part of this model.
- Strings are sequences of Unicode characters. JavaScript's `length` and `split('')` count
  UTF-16 code units, so a letter outside the Basic Multilingual Plane counts once here and twice
  there. This touches `exactlen` (`src/modules/services/WordValidatorService.ts:10`), the
  maximum `word.length` set by `loadWordle` (`src/modules/WordleGame.ts:66`), and every index the
  comparators use.
