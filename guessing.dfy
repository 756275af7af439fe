/** The pure decisions of `NumberGuessingGame` in case3.py: what one line of
    input means during a round (`validate_input`), how a guess is judged
    (`check_guess`) and which extra hint it earns (`provide_hint`), and one
    pass of the difficulty menu (`change_difficulty`). */
module Guessing {
  import opened Wrappers
  import opened Text

  // Control words, compared with the lowered input line.
  const QuitWords: seq<string> := ["quit", "exit", "q"]
  const HelpWords: seq<string> := ["help", "h"]
  const StatsWords: seq<string> := ["stats", "statistics"]
  const RestartWords: seq<string> := ["restart", "new", "again"]

  predicate IsCommandWord(w: string) {
    w in QuitWords || w in HelpWords || w in StatsWords || w in RestartWords
  }

  /** Why a line was refused: the three ERROR messages of `validate_input`. */
  datatype Rejection = NotAnInteger | OutOfRange | AlreadyUsed

  /** The tagged result of `validate_input`. */
  datatype Validation =
    | Quit
    | Help
    | ShowStats
    | Restart
    | Error(reason: Rejection)
    | Success(guess: int)
  {
    /** HELP, STATS and every ERROR make `get_user_guess` prompt again. */
    predicate IsRetry() {
      Help? || ShowStats? || Error?
    }
  }

  /** The four word lists share no word. */
  lemma WordListsDisjoint(w: string)
    ensures w in QuitWords ==> w !in HelpWords && w !in StatsWords && w !in RestartWords
    ensures w in HelpWords ==> w !in StatsWords && w !in RestartWords
    ensures w in StatsWords ==> w !in RestartWords
  {
  }

  /** No control word reads as an integer, so trying the words first never
      hides a number. */
  lemma CommandWordsAreNotIntegers(s: string)
    requires IsCommandWord(Lower(s))
    ensures ParseInt(s).None?
  {
    var w := Lower(s);
    assert !IsDigit(w[0]) && !IsIntSpace(w[0]) && w[0] != '-' && w[0] != '+';
    assert !NumericChars(w);
    NumericIsLowerCase(s);
    ParsedIsNumeric(s);
  }

  /** The decision of `validate_input` once the line has been lowered
      (`word`) and read as an integer (`parsed`, `None` for the ValueError). */
  function Classify(word: string, parsed: Option<int>, minNumber: int, maxNumber: int, usedNumbers: seq<int>): (r: Validation)
    ensures r.Success? ==> minNumber <= r.guess <= maxNumber && r.guess !in usedNumbers
  {
    if word in QuitWords then Quit
    else if word in HelpWords then Help
    else if word in StatsWords then ShowStats
    else if word in RestartWords then Restart
    else
      match parsed
      case None => Error(NotAnInteger)
      case Some(guess) =>
        if !(minNumber <= guess <= maxNumber) then Error(OutOfRange)
        else if guess in usedNumbers then Error(AlreadyUsed)
        else Success(guess)
  }

  /** `validate_input`: control words first (case-insensitively), then the
      integer checks in order: not an integer, out of range, already used. */
  function ValidateInput(userInput: string, minNumber: int, maxNumber: int, usedNumbers: seq<int>): (r: Validation)
    ensures r.Success? ==> minNumber <= r.guess <= maxNumber && r.guess !in usedNumbers
  {
    Classify(Lower(userInput), ParseInt(userInput), minNumber, maxNumber, usedNumbers)
  }

  /** What each result of `validate_input` means: a control word in any
      letter case; otherwise the integer the line holds decides, with the
      range tested before repetition. */
  lemma ValidateInputCases(userInput: string, minNumber: int, maxNumber: int, usedNumbers: seq<int>)
    ensures var r := ValidateInput(userInput, minNumber, maxNumber, usedNumbers);
      && (r.Quit? <==> Lower(userInput) in QuitWords)
      && (r.Help? <==> Lower(userInput) in HelpWords)
      && (r.ShowStats? <==> Lower(userInput) in StatsWords)
      && (r.Restart? <==> Lower(userInput) in RestartWords)
    ensures ValidateInput(userInput, minNumber, maxNumber, usedNumbers) == Error(NotAnInteger) <==>
      !IsCommandWord(Lower(userInput)) && ParseInt(userInput).None?
    ensures var p := ParseInt(userInput);
      ValidateInput(userInput, minNumber, maxNumber, usedNumbers) == Error(OutOfRange) <==>
      p.Some? && !(minNumber <= p.value <= maxNumber)
    ensures var p := ParseInt(userInput);
      ValidateInput(userInput, minNumber, maxNumber, usedNumbers) == Error(AlreadyUsed) <==>
      p.Some? && minNumber <= p.value <= maxNumber && p.value in usedNumbers
    ensures var p := ParseInt(userInput);
      ValidateInput(userInput, minNumber, maxNumber, usedNumbers).Success? <==>
      p.Some? && minNumber <= p.value <= maxNumber && p.value !in usedNumbers
    ensures var r := ValidateInput(userInput, minNumber, maxNumber, usedNumbers);
      r.Success? ==> ParseInt(userInput) == Some(r.guess)
  {
    var word := Lower(userInput);
    WordListsDisjoint(word);
    if IsCommandWord(word) {
      CommandWordsAreNotIntegers(userInput);
    }
  }

  /** The whole classification ignores letter case, not only the words. */
  lemma ValidateIgnoresCase(userInput: string, minNumber: int, maxNumber: int, usedNumbers: seq<int>)
    ensures ValidateInput(Lower(userInput), minNumber, maxNumber, usedNumbers)
         == ValidateInput(userInput, minNumber, maxNumber, usedNumbers)
  {
    LowerIdempotent(userInput);
    ParseIgnoresCase(userInput);
  }

  /** Once an accepted guess is recorded, the same line is refused as a repeat. */
  lemma RepeatIsRejected(userInput: string, minNumber: int, maxNumber: int, usedNumbers: seq<int>)
    requires ValidateInput(userInput, minNumber, maxNumber, usedNumbers).Success?
    ensures var g := ValidateInput(userInput, minNumber, maxNumber, usedNumbers).guess;
      ValidateInput(userInput, minNumber, maxNumber, usedNumbers + [g]) == Error(AlreadyUsed)
  {
    var g := ValidateInput(userInput, minNumber, maxNumber, usedNumbers).guess;
    assert g in usedNumbers + [g];
  }

  /** The extra hint `provide_hint` prints, if any. */
  datatype Hint = NoHint | VeryClose | FairlyClose | TargetEven | TargetOdd

  function Distance(a: int, b: int): nat {
    if a < b then b - a else a - b
  }

  /** `provide_hint`. With d the distance to the target and r the width of
      the range, the float tests `d <= r * 0.1` and `d <= r * 0.25` are
      modelled as the exact `10 * d <= r` and `4 * d <= r`, which agree with
      them for widths below 2^52. The parity hint is given when
      `attempts == max_attempts - 1`, with `attempts` already counting the
      guess just made. */
  function ProvideHint(guess: int, target: int, minNumber: int, maxNumber: int, attempts: int, maxAttempts: int): (h: Hint)
    ensures h == VeryClose <==> 10 * Distance(guess, target) <= maxNumber - minNumber
    ensures h == FairlyClose <==>
      maxNumber - minNumber < 10 * Distance(guess, target) && 4 * Distance(guess, target) <= maxNumber - minNumber
    ensures h.TargetEven? || h.TargetOdd? <==>
      maxNumber - minNumber < 4 * Distance(guess, target) && attempts == maxAttempts - 1
    ensures h == NoHint <==>
      maxNumber - minNumber < 4 * Distance(guess, target) && attempts != maxAttempts - 1
    ensures h == TargetEven ==> target % 2 == 0
    ensures h == TargetOdd ==> target % 2 == 1
  {
    var difference := Distance(guess, target);
    var rangeSize := maxNumber - minNumber;
    if 10 * difference <= rangeSize then VeryClose
    else if 4 * difference <= rangeSize then FairlyClose
    else if attempts == maxAttempts - 1 then
      if target % 2 == 0 then TargetEven else TargetOdd
    else NoHint
  }

  /** How strong a proximity hint is. */
  function HintRank(h: Hint): nat {
    match h
    case VeryClose => 2
    case FairlyClose => 1
    case _ => 0
  }

  /** A closer guess never earns a weaker proximity hint. */
  lemma CloserGuessStrongerHint(near: int, far: int, target: int, minNumber: int, maxNumber: int, attempts: int, maxAttempts: int)
    requires Distance(near, target) <= Distance(far, target)
    ensures HintRank(ProvideHint(near, target, minNumber, maxNumber, attempts, maxAttempts))
         >= HintRank(ProvideHint(far, target, minNumber, maxNumber, attempts, maxAttempts))
  {
    var dn, df := Distance(near, target), Distance(far, target);
    assert 10 * dn <= 10 * df && 4 * dn <= 4 * df;
  }

  /** What `check_guess` reports: a win, or the direction with the hint. */
  datatype Evaluation = Correct | TooLow(hint: Hint) | TooHigh(hint: Hint)

  /** `check_guess`, judged against the target; a hint is only considered
      once `attempts` (counting this guess) has reached 3. */
  function Evaluate(guess: int, target: int, minNumber: int, maxNumber: int, attempts: int, maxAttempts: int): (e: Evaluation)
    ensures e.Correct? <==> guess == target
    ensures e.TooLow? <==> guess < target
    ensures e.TooHigh? <==> target < guess
    ensures !e.Correct? && attempts < 3 ==> e.hint == NoHint
    ensures !e.Correct? && 3 <= attempts ==>
      e.hint == ProvideHint(guess, target, minNumber, maxNumber, attempts, maxAttempts)
  {
    if guess == target then Correct
    else
      var hint := if attempts >= 3 then ProvideHint(guess, target, minNumber, maxNumber, attempts, maxAttempts) else NoHint;
      if guess < target then TooLow(hint) else TooHigh(hint)
  }

  /** The parity hint comes only when exactly one attempt remains, and so
      never in a game of fewer than four attempts. */
  lemma ParityHintOnlyWithOneAttemptLeft(guess: int, target: int, minNumber: int, maxNumber: int, attempts: int, maxAttempts: int)
    requires var e := Evaluate(guess, target, minNumber, maxNumber, attempts, maxAttempts);
      !e.Correct? && (e.hint.TargetEven? || e.hint.TargetOdd?)
    ensures maxAttempts - attempts == 1 && maxAttempts >= 4
  {
  }

  /** Bounds and attempt ceiling of a game. */
  datatype Difficulty = Difficulty(minNumber: int, maxNumber: int, maxAttempts: int)

  predicate ValidDifficulty(d: Difficulty) {
    d.minNumber < d.maxNumber && d.maxAttempts > 0
  }

  /** The preset table of `change_difficulty`, by menu choice. */
  function Preset(choice: string): (r: Option<Difficulty>)
    ensures r.Some? ==> ValidDifficulty(r.value)
    ensures r.Some? <==> choice in ["1", "2", "3", "4"]
  {
    if choice == "1" then Some(Difficulty(1, 50, 10))
    else if choice == "2" then Some(Difficulty(1, 100, 7))
    else if choice == "3" then Some(Difficulty(1, 200, 5))
    else if choice == "4" then Some(Difficulty(1, 500, 3))
    else None
  }

  /** Why a pass of the difficulty menu asks again. */
  datatype MenuError = UnknownChoice | NotIntegers | BoundsNotIncreasing | NoAttempts

  /** The end of one pass of the menu loop: a difficulty chosen, a reason to
      ask again (with the index of the next unread line), or the end of the
      input, which the model reads as the user's interrupt. */
  datatype MenuStep = Selected(difficulty: Difficulty) | Rejected(reason: MenuError, next: nat) | Interrupted

  /** One pass of the `change_difficulty` loop reading `lines` from index `i`:
      the stripped choice, and for choice "5" the three integers (a line that
      is not an integer abandons the pass at once). */
  function DifficultyStep(lines: seq<string>, i: nat): (r: MenuStep)
    requires i <= |lines|
    ensures r.Selected? ==> ValidDifficulty(r.difficulty)
    ensures r.Rejected? ==> i < r.next <= |lines|
    ensures r.Interrupted? ==> i + 4 > |lines|
    ensures i < |lines| && Preset(Strip(lines[i])).Some? ==> r == Selected(Preset(Strip(lines[i])).value)
    ensures i < |lines| && Preset(Strip(lines[i])).None? && Strip(lines[i]) != "5" ==>
      r == Rejected(UnknownChoice, i + 1)
    ensures r.Selected? ==>
      && i < |lines|
      && (|| Preset(Strip(lines[i])) == Some(r.difficulty)
          || (&& Strip(lines[i]) == "5" && i + 3 < |lines|
              && ParseInt(lines[i + 1]) == Some(r.difficulty.minNumber)
              && ParseInt(lines[i + 2]) == Some(r.difficulty.maxNumber)
              && ParseInt(lines[i + 3]) == Some(r.difficulty.maxAttempts)))
  {
    if i == |lines| then Interrupted
    else
      var choice := Strip(lines[i]);
      match Preset(choice)
      case Some(d) => Selected(d)
      case None =>
        if choice != "5" then Rejected(UnknownChoice, i + 1)
        else if i + 1 == |lines| then Interrupted
        else match ParseInt(lines[i + 1])
          case None => Rejected(NotIntegers, i + 2)
          case Some(minNum) =>
            if i + 2 == |lines| then Interrupted
            else match ParseInt(lines[i + 2])
              case None => Rejected(NotIntegers, i + 3)
              case Some(maxNum) =>
                if i + 3 == |lines| then Interrupted
                else match ParseInt(lines[i + 3])
                  case None => Rejected(NotIntegers, i + 4)
                  case Some(attempts) =>
                    if minNum >= maxNum then Rejected(BoundsNotIncreasing, i + 4)
                    else if attempts <= 0 then Rejected(NoAttempts, i + 4)
                    else Selected(Difficulty(minNum, maxNum, attempts))
  }

  /** A custom setting is taken exactly when its bounds increase and its
      attempt count is positive. */
  lemma CustomDifficulty(lines: seq<string>, i: nat, minNum: int, maxNum: int, attempts: int)
    requires i + 4 <= |lines| && Strip(lines[i]) == "5"
    requires ParseInt(lines[i + 1]) == Some(minNum)
    requires ParseInt(lines[i + 2]) == Some(maxNum)
    requires ParseInt(lines[i + 3]) == Some(attempts)
    ensures DifficultyStep(lines, i) == Selected(Difficulty(minNum, maxNum, attempts)) <==> minNum < maxNum && attempts > 0
    ensures !(minNum < maxNum && attempts > 0) ==> DifficultyStep(lines, i).Rejected?
  {
    assert Preset(Strip(lines[i])) == None;
  }

  /** The whole `change_difficulty` loop from line `i`: the first difficulty
      selected, or `None` when the input ends first. */
  function ChooseDifficulty(lines: seq<string>, i: nat): (r: Option<Difficulty>)
    requires i <= |lines|
    ensures r.Some? ==> ValidDifficulty(r.value)
    decreases |lines| - i
  {
    match DifficultyStep(lines, i)
    case Selected(d) => Some(d)
    case Rejected(_, next) => ChooseDifficulty(lines, next)
    case Interrupted => None
  }
}
