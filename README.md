# Number guessing game and factorial program, modelled in Dafny

This project models two small console programs.

`case3.py` is the number guessing game `NumberGuessingGame`:
- The game draws a target in `[min_number, max_number]`.
- It reads lines until it gets a usable guess. A guess is accepted when it is an integer in range and has not been tried in this round. The words `quit`/`exit`/`q`, `help`/`h`, `stats`/`statistics` and `restart`/`new`/`again` are commands, matched in any letter case.
- After each guess it reports too low, too high or a win. From the third attempt on a miss may also earn a hint: very close or fairly close by distance, or the target's parity when exactly one attempt remains.
- It keeps win/loss statistics: counters, streaks, the best score, and a history of the last 50 games.
- A difficulty menu offers four presets or custom bounds.

`main.py` reads one line and refuses anything that is not an integer or is negative. It computes the factorial of any other number and prints it, adding the number of digits of the result for a number above 10. Two Python limits bound this:
- `math.factorial` raises OverflowError above the C `long` maximum.
- Writing an integer of more than 4300 digits raises ValueError. From 1559! on the factorial is that long, and the program then reports the same "invalid input" error as for a non-number.

Its `test_factorial` lists four known values.

The model is split into these modules:
- `Wrappers`: `Option`.
- `Text`: the Python built-ins the programs rely on. These are `str.lower`, `str.strip`, `int(...)` on a line and `str(...)` of an integer.
- `Guessing`: the pure decisions of the game. These are line validation, judging a guess, hints, and one pass of the difficulty menu.
- `Stats`: the statistics record as a value. It covers `update_statistics` as a function on records and its effect over any sequence of games, plus the guards of `show_statistics`.
- `Game`: the class `NumberGuessingGame`, whose methods update its fields in place as the Python methods do. The console is replaced by a sequence of input lines. The random target and the timestamp are parameters.
- `Factorial`: `calculate_factorial` and `main` of `main.py`.

## Model

| member | source | states |
|---|---|---|
| Text.Lower | case3.py:52-58 | `str.lower` keeps the length and lowers each character on its own; ASCII capitals become the matching small letters, everything else is unchanged |
| Text.Strip | case3.py:301 | `str.strip`: the line without the whitespace `str.isspace` knows at either end; its contract is stated by Text.TrimKeepsMiddle, Text.SeparatorsDiffer and Text.NoBreakSpaceSkipped |
| Text.TrimKeepsMiddle | case3.py:301 | `strip` (and the whitespace skipping of `int`) returns the contiguous stretch of the line that starts after the leading whitespace. Only whitespace lies before and after it, and it has no whitespace at either end. A line without surrounding whitespace is returned whole |
| Text.SeparatorsDiffer | case3.py:301 | `strip` removes the separators U+001C to U+001F, which `int` does not skip: the menu line "\x1c1" strips to "1", while `int` refuses it |
| Text.NoBreakSpaceSkipped | case3.py:301 | a no-break space before a number is removed by `strip` and skipped by `int` alike: "\u00a01" strips to "1" and reads as 1 |
| Text.ParseInt | case3.py:62 | `int(...)` on a line: its contract is stated by Text.ParseDigitsAccepts, Text.ParsedIsNumeric, Text.ParseFormatInt and Text.ParseIgnoresCase |
| Text.ParseDigitsAccepts | case3.py:62 | a digit string is read as a number exactly when it is non-empty and made only of decimal digits |
| Text.ParsedIsNumeric | case3.py:62 | a line that `int` accepts holds nothing but the whitespace `int` skips, digits and signs |
| Text.ParseFormatInt | main.py:28 | `int(str(n)) == n` for every integer `n` of at most 4300 digits, negative ones included; `int` refuses the text of a longer one |
| Text.FormatInt | main.py:39 | `str(...)` of an integer: never empty; its digits read back as the number (Text.FormatNatValue) and `int` reads the whole text back (Text.ParseFormatInt) |
| Text.FormatNatValue | main.py:43 | the decimal digits written for a natural number read back as that number |
| Text.FormatNatGrows | main.py:43 | a larger number never has fewer digits |
| Text.ParseIgnoresCase | case3.py:52-62 | lowering a line never changes what `int` makes of it |
| Guessing.WordListsDisjoint | case3.py:52-59 | the four command word lists share no word, so the order of the tests cannot matter |
| Guessing.CommandWordsAreNotIntegers | case3.py:52-62 | no command word (in any letter case) reads as an integer, so trying the words first never hides a number |
| Guessing.Classify | case3.py:52-72 | a SUCCESS carries a number within the bounds that is not among the used numbers |
| Guessing.ValidateInput | case3.py:48-75 | a SUCCESS from `validate_input` carries an in-range number that is not among the used numbers |
| Guessing.ValidateInputCases | case3.py:48-75 | each result of `validate_input` in both directions: QUIT, HELP, STATS and RESTART exactly for their words in any case; "not an integer" exactly when `int` fails on a non-command line; "out of range" and "already used" exactly when the parsed number fails the range test or, in range, was used; SUCCESS exactly for a fresh in-range number, carrying the parsed value |
| Guessing.ValidateIgnoresCase | case3.py:52-62 | the whole validation gives the same result for a line and its lowered form |
| Guessing.RepeatIsRejected | case3.py:69-70 | once an accepted number is appended to the used numbers, the same line is refused as already used |
| Guessing.ProvideHint | case3.py:127-140 | "very close" exactly when the distance is at most a tenth of the range width, "fairly close" exactly when it is above a tenth and at most a quarter, a parity hint exactly when it is farther with one attempt left (and the parity is the target's), no hint otherwise |
| Guessing.CloserGuessStrongerHint | case3.py:129-135 | a guess closer to the target never earns a weaker proximity hint than a farther one |
| Guessing.Evaluate | case3.py:110-125 | a win exactly when the guess equals the target, "too low" exactly when it is below, "too high" exactly when it is above; no hint before the third attempt, the `provide_hint` hint from then on |
| Guessing.ParityHintOnlyWithOneAttemptLeft | case3.py:122-140 | a parity hint comes only when exactly one attempt remains, and never in a game with fewer than four attempts |
| Guessing.Preset | case3.py:303-314 | choices "1" to "4" and only those select a preset, and every preset has increasing bounds and a positive attempt count |
| Guessing.DifficultyStep | case3.py:299-333 | one pass of the menu selects only a usable difficulty, always selects the preset for "1"-"4", and rejects any other choice but "5" as unknown after one line. A difficulty it selects is the preset of the stripped choice, or the three integers read on the three lines after "5". An unsuccessful pass consumes at least one line |
| Guessing.CustomDifficulty | case3.py:315-329 | a custom setting of three integers is taken exactly when min < max and attempts > 0, and is rejected otherwise |
| Guessing.ChooseDifficulty | case3.py:299-337 | the menu loop only ever ends on a usable difficulty |
| Stats.Defaults | case3.py:151-159 | the starting record is consistent and has an empty history |
| Stats.KeepRecent | case3.py:211-213 | the trimmed history holds at most 50 entries; the last 50 of a longer history, in order; a short history unchanged |
| Stats.KeepRecentAppend | case3.py:198-213 | appending to an already trimmed history and trimming again equals trimming the whole history: the oldest entries leave first |
| Stats.Recorded | case3.py:177-213 | `update_statistics` on the record as a value; its contract is stated by Stats.RecordedEffects, Stats.RecordedConsistent and the Stats.RecordAll lemmas |
| Stats.RecordedEffects | case3.py:177-213 | one more game played; a win adds one win and its attempts, extends the streak and lowers the best score to its attempts when that is fewer; a loss resets the streak and leaves the best score and attempts alone; the best streak never falls; the entry joins the trimmed history |
| Stats.RecordedConsistent | case3.py:177-213 | `update_statistics` keeps the record consistent (wins at most games, streaks ordered, history at most 50, best score present exactly after a win and at most the mean attempts per win) |
| Stats.RecordAllCounts | case3.py:179-182 | over any run of games the played count grows by the number of games and the won count by the number of wins |
| Stats.RecordAllHistory | case3.py:198-213 | over any run of games the history is the last 50 entries of the old history followed by the new ones |
| Stats.RecordAllStreak | case3.py:184-200 | over any run of games the current streak is the number of wins since the last loss |
| Stats.BestScoreAtMostEveryWin | case3.py:187-188 | over any run of games the best score is at most the attempts of every win |
| Stats.BestScoreIsAttained | case3.py:187-188 | a best score that changed is the attempt count of one of the wins |
| Stats.Summarize | case3.py:217-239 | nothing is shown exactly when no game was played; the win rate is won over played; the mean attempts is shown exactly when there is a win and is total attempts over wins; no division by zero |
| Stats.SummaryBounds | case3.py:227-235 | for a consistent record the win rate is at most 100% and the mean attempts per win is at least the best score |
| Game.AppendFresh | case3.py:98-100 | appending an accepted number keeps the used numbers distinct and in range |
| Game.Verdicts | case3.py:79-83 | one verdict per line, and every SUCCESS verdict is a fresh in-range number |
| Game.VerdictAt | case3.py:83 | the verdict at each index is `validate_input` of that line |
| Game.NextGuess | case3.py:77-108 | the index where `get_user_guess` stops lies between the start and the end of the input; an accepted number is the SUCCESS verdict of the last line read |
| Game.NextGuessPassesOver | case3.py:87-97 | HELP, STATS and ERROR lines are passed over |
| Game.NextGuessDecides | case3.py:77-108 | `get_user_guess` passes over retry lines only and stops right after the line that decides (SUCCESS with the guess, RESTART, QUIT), or at the end of the input with QUIT |
| Game.NextGuessStops | case3.py:85-101 | the line `get_user_guess` stops after reads as the outcome it returns, unless the input ended, which gives QUIT |
| Game.PlayFrom | case3.py:246-267 | the rest of a round never reads past the end of the input |
| Game.PlayFromAccepts | case3.py:246-267 | the numbers a round accepts only grow and never pass the attempt limit. QUIT and RESTART come exactly when attempts remain and the target is unguessed. CONTINUE comes on the target as the last guess, or else exactly on the last allowed attempt with the target never guessed |
| Game.PlayFromLastLine | case3.py:249-255 | RESTART ends a round right after a line that reads as RESTART; QUIT right after a line that reads as QUIT, or at the end of the input |
| Game.PlayFromLastGuess | case3.py:249-267 | CONTINUE ends a round right after a line accepted as a new guess, validated against the numbers accepted before it |
| Game.RoundWonOnFirstLine | case3.py:241-269 | a round against 50 on 1..100 whose first line is "50" is won on that line |
| Game.NumberGuessingGame.constructor | case3.py:12-19 | default difficulty 1..100 with 7 attempts, no round in progress, default statistics |
| Game.NumberGuessingGame.GenerateNumber | case3.py:23-28 | a new round: the given target, no attempts, no used numbers, the game active |
| Game.NumberGuessingGame.GetUserGuess | case3.py:77-108 | the outcome is the one `NextGuess` gives; an accepted number adds one attempt and joins the used numbers; QUIT and RESTART change nothing; the round invariant is kept |
| Game.NumberGuessingGame.UpdateStatistics | case3.py:177-215 | the statistics become `Recorded` of the old ones with this round's entry, and stay consistent |
| Game.NumberGuessingGame.CheckGuess | case3.py:110-125 | the verdict is `Evaluate`; a win records a won game, anything else leaves the statistics as they were |
| Game.NumberGuessingGame.PlayRound | case3.py:241-269 | the result, the lines read and the accepted numbers are those of `PlayFrom` from the first line with nothing accepted. The game stays active exactly when the round did not end on QUIT and the target was not guessed, so RESTART and a loss leave it active. QUIT and RESTART record nothing. CONTINUE comes after exactly one record: a win when the target was guessed (as the last guess, the game deactivated), otherwise a loss with every attempt used |
| Game.NumberGuessingGame.ChangeDifficulty | case3.py:288-337 | the difficulty becomes the first one the menu accepts; if the input ends first it stays as it was; the game stays valid |
| Factorial.Factorial | main.py:4-15 | n! is at least 1 and at least n |
| Factorial.ProductSplit | main.py:4-15 | a product of consecutive numbers splits at any point into two products |
| Factorial.FactorialIsProduct | main.py:4-15 | n! equals the product 1 * 2 * ... * n |
| Factorial.FactorialGrows | main.py:4-15 | the factorial never decreases |
| Factorial.FactorialTestCases | main.py:64-69 | the four values of `test_factorial`: 0! = 1, 1! = 1, 5! = 120, 10! = 3628800 |
| Factorial.Run | main.py:17-57 | what `main` prints for one line; its contract is stated by Factorial.RunCases, Factorial.RunWritten and Factorial.ComputedBelow |
| Factorial.RunCases | main.py:23-50 | invalid input exactly when `int` rejects the line or the factorial of a number up to the C `long` maximum has more than 4300 digits. A negative number is refused with that number. A number above the C `long` maximum overflows. Otherwise the factorial is computed, and the digit count is added exactly when the number exceeds 10 |
| Factorial.RunWritten | main.py:25-43 | the text `str` writes for a number: a negative one is refused with that number, and one above the C `long` maximum overflows; any other is computed, with its own factorial, exactly when that factorial has at most 4300 digits. A number whose own text is longer than 4300 digits is invalid input |
| Factorial.ComputedBelow | main.py:36-43 | the numbers whose factorial is printed form an initial segment: if one is computed, so is every smaller non-negative number |

## Left out

- Console output, the prompts and the menus' texts are left out. Commands like HELP and STATS appear only as verdicts that make the game read another line.
- Input is a sequence of lines.
  - Where `input()` would block at the end of the input, the model reads the end as the user's interrupt (KeyboardInterrupt). That is QUIT in `get_user_guess`, and leaving `change_difficulty` with the difficulty unchanged.
  - At a real end of file Python raises EOFError, which both loops catch as a generic exception and retry. The model does not reproduce that endless retry.
- `random.randint` and `datetime.now().isoformat()` are left out. The drawn target is a parameter of `GenerateNumber` and `PlayRound`. The timestamp is a parameter of `PlayRound`, `CheckGuess` and `UpdateStatistics`.
- `load_statistics` and `save_statistics` (JSON files) are left out, including the merge of a loaded file over the defaults. The statistics start from `Defaults` and live only in memory. A loaded file could break `Consistent`.
- `show_instructions`, `show_progress` (apart from the error noted on the `PlayRound` line below), `ask_play_again`, `main_menu`, `start_game` and the module-level `main` of case3.py are plain console plumbing and are not modelled.
- Game.NumberGuessingGame.constructor: only the default arguments (1, 100, 7) are modelled.
- Game.NumberGuessingGame.GetUserGuess: requires that an attempt is still available. `play_round` only calls it then.
- `show_statistics` prints the win rate and the mean attempts as rounded floats. Stats.Summarize gives them as exact ratios, and floating-point rounding is not modelled.
- Guessing.ProvideHint: the float thresholds `range_size * 0.1` and `range_size * 0.25` are compared exactly, as `10 * d <= range` and `4 * d <= range`.
  - The two agree for widths below 2^52. From there on the double rounding of `range_size * 0.1` can differ. For example, at width 6800000000000009 and distance 680000000000001 Python says "very close" and the model says "fairly close".
  - For widths above the largest double (about 1.8e308, reachable only with custom bounds), `range_size * 0.1` raises OverflowError from the third attempt on. That exception leaves `play_round` and is caught by `main_menu` (case3.py:373-374), abandoning the round with nothing recorded. The model gives a hint instead.
- Text.ParseDigitsAccepts and the rest of the `int` model:
  - `int` is modelled as optional whitespace, an optional sign and ASCII digits. Underscores between digits and non-ASCII digits, which Python also accepts, are not modelled.
  - The whitespace `int` skips is C's (tab to carriage return, and space) plus every non-ASCII whitespace character, which CPython turns into a space before parsing. The whitespace `str.strip` removes additionally holds U+001C to U+001F.
- Text.ParseFormatInt, Text.ParseDigitsAccepts, Factorial.RunCases and Factorial.RunWritten use CPython's default limit of 4300 digits for `int` and `str` (Python 3.11 and later). A different limit set with `sys.set_int_max_str_digits` or `PYTHONINTMAXSTRDIGITS`, and older Pythons without the limit, are not modelled. `ParseDigits` alone reads digit strings of any length; the limit is applied in `ParseSigned`.
- Game.NumberGuessingGame.PlayRound: `play_round` calls `show_progress` before every line it reads (case3.py:247). With a custom attempt ceiling of 2^63 or more above the attempts made, `"░" * remaining` (case3.py:145) raises OverflowError, and a large ceiling below that can raise MemoryError, depending on the machine. The exception leaves `play_round` before any line is read and is caught by `main_menu` (case3.py:373-374), abandoning the round with nothing recorded. The model plays such a round as `PlayFrom` says.
- Text.Lower: only ASCII capitals are lowered. Other Unicode case mappings are not modelled.
- Factorial.Run: the C `long` maximum is that of 64-bit Linux (2^63 - 1); on Windows it is 2^31 - 1. `math.factorial` of a number below that maximum but in the millions or more takes very long or runs out of memory; MemoryError would reach the generic handler of `main`. The model computes every such factorial. The generic handler itself is left out.
- `main.py`'s closing question about running the tests is left out. Its `test_factorial` values are stated as a lemma.
