/** The `NumberGuessingGame` object of case3.py: its round state and its
    statistics, updated in place by the round loop. Lines of user input are
    given as a sequence; running out of input stands for the user's
    interrupt (Ctrl-C), which the source turns into QUIT. */
module Game {
  import opened Wrappers
  import opened Text
  import opened Guessing
  import opened Stats

  predicate Distinct(s: seq<int>) {
    forall i, j :: 0 <= i < j < |s| ==> s[i] != s[j]
  }

  predicate AllInRange(s: seq<int>, lo: int, hi: int) {
    forall i :: 0 <= i < |s| ==> lo <= s[i] <= hi
  }

  /** Adding an unused in-range number keeps the used numbers distinct and
      in range. */
  lemma AppendFresh(used: seq<int>, g: int, lo: int, hi: int)
    requires Distinct(used) && AllInRange(used, lo, hi)
    requires lo <= g <= hi && g !in used
    ensures Distinct(used + [g]) && AllInRange(used + [g], lo, hi)
  {
  }

  /** What `get_user_guess` returns: an accepted number, 'QUIT' or 'RESTART'. */
  datatype GuessOutcome = Guessed(guess: int) | QuitRequested | RestartRequested

  /** The verdicts `validate_input` gives the lines of `inputs`, in order;
      every SUCCESS among them is an in-range number not used yet. */
  function Verdicts(inputs: seq<string>, lo: int, hi: int, used: seq<int>): (vs: seq<Validation>)
    ensures |vs| == |inputs|
    ensures forall k :: 0 <= k < |vs| && vs[k].Success? ==> lo <= vs[k].guess <= hi && vs[k].guess !in used
  {
    if inputs == [] then []
    else [ValidateInput(inputs[0], lo, hi, used)] + Verdicts(inputs[1..], lo, hi, used)
  }

  /** The verdict at index `k` is that of line `k`. */
  lemma {:induction false} VerdictAt(inputs: seq<string>, lo: int, hi: int, used: seq<int>, k: nat)
    requires k < |inputs|
    ensures Verdicts(inputs, lo, hi, used)[k] == ValidateInput(inputs[k], lo, hi, used)
  {
    if k > 0 {
      VerdictAt(inputs[1..], lo, hi, used, k - 1);
    }
  }

  /** What `get_user_guess` makes of the lines whose verdicts are `vs`, from
      index `i`, with the index of the first line it leaves unread: HELP,
      STATS and ERROR lines are passed over, the first other line decides,
      and the end of the input is the interrupt that the source turns into
      QUIT. An accepted number is the SUCCESS of the last line read. */
  function NextGuess(vs: seq<Validation>, i: nat): (r: (GuessOutcome, nat))
    requires i <= |vs|
    ensures i <= r.1 <= |vs|
    ensures r.0.Guessed? ==> i < r.1 && vs[r.1 - 1] == Success(r.0.guess)
    decreases |vs| - i
  {
    if i == |vs| then (QuitRequested, i)
    else
      match vs[i]
      case Quit => (QuitRequested, i + 1)
      case Restart => (RestartRequested, i + 1)
      case Success(guess) => (Guessed(guess), i + 1)
      case _ => NextGuess(vs, i + 1)
  }

  /** Every verdict in `vs[from..to]` only made `get_user_guess` ask again. */
  predicate Skipped(vs: seq<Validation>, from: nat, to: nat)
    requires from <= to <= |vs|
    decreases |vs| - from
  {
    from == to || (vs[from].IsRetry() && Skipped(vs, from + 1, to))
  }

  /** The verdict `v` is what made `get_user_guess` return `outcome`. */
  predicate Decides(v: Validation, outcome: GuessOutcome) {
    match outcome
    case Guessed(g) => v == Success(g)
    case QuitRequested => v == Quit
    case RestartRequested => v == Restart
  }

  /** A retry line is passed over. */
  lemma NextGuessPassesOver(vs: seq<Validation>, i: nat)
    requires i < |vs| && vs[i].IsRetry()
    ensures NextGuess(vs, i) == NextGuess(vs, i + 1)
  {
  }

  /** `NextGuess` passes over retry lines only, and the line it stops after
      is the one that decides: a SUCCESS with the guess, a RESTART, or a
      QUIT; or it reaches the end of the input, and that is a QUIT. */
  lemma {:induction false} NextGuessDecides(vs: seq<Validation>, i: nat)
    requires i <= |vs|
    ensures var r := NextGuess(vs, i);
      || (r.1 == |vs| && r.0 == QuitRequested && Skipped(vs, i, r.1))
      || (i < r.1 && Skipped(vs, i, r.1 - 1) && Decides(vs[r.1 - 1], r.0))
    decreases |vs| - i
  {
    if i < |vs| && vs[i].IsRetry() {
      NextGuessDecides(vs, i + 1);
    }
  }

  /** The line `get_user_guess` stops after reads as the command it
      returns, unless the input ended. */
  lemma NextGuessStops(vs: seq<Validation>, i: nat)
    requires i <= |vs|
    ensures var r := NextGuess(vs, i);
      (r.0 == QuitRequested && r.1 == |vs|) || (i < r.1 && Decides(vs[r.1 - 1], r.0))
  {
    NextGuessDecides(vs, i);
  }

  /** What `play_round` returns: 'QUIT', 'RESTART' or 'CONTINUE'. */
  datatype RoundResult = RoundQuit | RoundRestart | RoundContinue

  /** How a round ends: its result, the index of the first line it left
      unread, and the numbers accepted in it, in order. */
  datatype RoundEnd = RoundEnd(result: RoundResult, next: nat, used: seq<int>)

  /** The rest of a round that reads `inputs` from index `i`, with `used`
      accepted so far. Each `get_user_guess` validates the lines against the
      numbers accepted before it. QUIT and RESTART end the round; a hit, or a
      miss on the last attempt, ends it with CONTINUE; any other miss lets it
      go on. */
  function PlayFrom(inputs: seq<string>, i: nat, target: int, lo: int, hi: int,
                    maxAttempts: int, used: seq<int>): (e: RoundEnd)
    requires i <= |inputs| && |used| < maxAttempts
    ensures i <= e.next <= |inputs|
    decreases |inputs| - i
  {
    var (outcome, j) := NextGuess(Verdicts(inputs, lo, hi, used), i);
    match outcome
    case QuitRequested => RoundEnd(RoundQuit, j, used)
    case RestartRequested => RoundEnd(RoundRestart, j, used)
    case Guessed(guess) =>
      var accepted := used + [guess];
      if guess == target || |accepted| >= maxAttempts then RoundEnd(RoundContinue, j, accepted)
      else PlayFrom(inputs, j, target, lo, hi, maxAttempts, accepted)
  }

  /** The numbers a round accepted, starting from `used`: they only grow,
      never past the attempt limit. The round stopped with QUIT or RESTART
      exactly when it had attempts to spare and the target unguessed; with
      CONTINUE, on the target as the last guess, or else on the last allowed
      attempt with the target never guessed. */
  predicate AcceptsWithin(target: int, maxAttempts: int, used: seq<int>, e: RoundEnd)
  {
    && |used| <= |e.used| <= maxAttempts && e.used[..|used|] == used
    && (e.result != RoundContinue <==> |e.used| < maxAttempts && target !in e.used)
    && (e.result == RoundContinue && target in e.used ==> e.used[|e.used| - 1] == target)
  }

  /** Every round keeps to the attempt limit and ends as `AcceptsWithin` says. */
  lemma {:induction false} PlayFromAccepts(inputs: seq<string>, i: nat, target: int, lo: int, hi: int,
                                           maxAttempts: int, used: seq<int>)
    requires i <= |inputs| && |used| < maxAttempts && target !in used
    ensures AcceptsWithin(target, maxAttempts, used, PlayFrom(inputs, i, target, lo, hi, maxAttempts, used))
    decreases |inputs| - i
  {
    var r := NextGuess(Verdicts(inputs, lo, hi, used), i);
    var e := PlayFrom(inputs, i, target, lo, hi, maxAttempts, used);
    match r.0
    case QuitRequested =>
      assert e == RoundEnd(RoundQuit, r.1, used);
    case RestartRequested =>
      assert e == RoundEnd(RoundRestart, r.1, used);
    case Guessed(guess) =>
      var accepted := used + [guess];
      if guess != target && |accepted| < maxAttempts {
        PlayFromAccepts(inputs, r.1, target, lo, hi, maxAttempts, accepted);
        assert e == PlayFrom(inputs, r.1, target, lo, hi, maxAttempts, accepted);
        assert e.used[..|used|] == accepted[..|used|];
      } else {
        assert e == RoundEnd(RoundContinue, r.1, accepted);
        assert accepted[..|used|] == used;
      }
  }

  /** A round that stopped with RESTART did so right after a line that reads
      as RESTART; one that stopped with QUIT, right after a line that reads
      as QUIT or at the end of the input. */
  predicate EndsOnCommand(inputs: seq<string>, lo: int, hi: int, i: nat, e: RoundEnd)
  {
    && (e.result == RoundRestart ==>
          i < e.next <= |inputs| && Verdicts(inputs, lo, hi, e.used)[e.next - 1] == Restart)
    && (e.result == RoundQuit ==>
          e.next == |inputs| || (i < e.next <= |inputs| && Verdicts(inputs, lo, hi, e.used)[e.next - 1] == Quit))
  }

  /** Every round that stops on a command stops as `EndsOnCommand` says. */
  lemma {:induction false} PlayFromLastLine(inputs: seq<string>, i: nat, target: int, lo: int, hi: int,
                                            maxAttempts: int, used: seq<int>)
    requires i <= |inputs| && |used| < maxAttempts
    ensures EndsOnCommand(inputs, lo, hi, i, PlayFrom(inputs, i, target, lo, hi, maxAttempts, used))
    decreases |inputs| - i
  {
    var vs := Verdicts(inputs, lo, hi, used);
    var r := NextGuess(vs, i);
    var e := PlayFrom(inputs, i, target, lo, hi, maxAttempts, used);
    NextGuessStops(vs, i);
    match r.0
    case QuitRequested =>
      assert e == RoundEnd(RoundQuit, r.1, used);
      assert |vs| == |inputs|;
    case RestartRequested =>
      assert e == RoundEnd(RoundRestart, r.1, used);
    case Guessed(guess) =>
      var accepted := used + [guess];
      if guess != target && |accepted| < maxAttempts {
        PlayFromLastLine(inputs, r.1, target, lo, hi, maxAttempts, accepted);
        assert e == PlayFrom(inputs, r.1, target, lo, hi, maxAttempts, accepted);
      } else {
        assert e == RoundEnd(RoundContinue, r.1, accepted);
      }
  }

  /** A round that ended with CONTINUE did so right after a line accepted
      as a new guess, validated against the numbers accepted before it. */
  predicate EndsOnGuess(inputs: seq<string>, lo: int, hi: int, i: nat, used: seq<int>, e: RoundEnd)
  {
    e.result == RoundContinue ==>
      && |used| < |e.used| && i < e.next <= |inputs|
      && Verdicts(inputs, lo, hi, e.used[..|e.used| - 1])[e.next - 1] == Success(e.used[|e.used| - 1])
  }

  /** Every round that ends with CONTINUE ends on an accepted guess. */
  lemma {:induction false} PlayFromLastGuess(inputs: seq<string>, i: nat, target: int, lo: int, hi: int,
                                             maxAttempts: int, used: seq<int>)
    requires i <= |inputs| && |used| < maxAttempts
    ensures EndsOnGuess(inputs, lo, hi, i, used, PlayFrom(inputs, i, target, lo, hi, maxAttempts, used))
    decreases |inputs| - i
  {
    var vs := Verdicts(inputs, lo, hi, used);
    var r := NextGuess(vs, i);
    var e := PlayFrom(inputs, i, target, lo, hi, maxAttempts, used);
    match r.0
    case QuitRequested =>
      assert e.result == RoundQuit;
    case RestartRequested =>
      assert e.result == RoundRestart;
    case Guessed(guess) =>
      var accepted := used + [guess];
      if guess != target && |accepted| < maxAttempts {
        PlayFromLastGuess(inputs, r.1, target, lo, hi, maxAttempts, accepted);
        assert e == PlayFrom(inputs, r.1, target, lo, hi, maxAttempts, accepted);
      } else {
        assert e == RoundEnd(RoundContinue, r.1, accepted);
        assert accepted[..|accepted| - 1] == used && accepted[|accepted| - 1] == guess;
      }
  }

  /** A round against 50 on 1..100 whose first line is "50" is won on that
      line. */
  lemma RoundWonOnFirstLine()
    ensures PlayFrom(["50"], 0, 50, 1, 100, 7, []) == RoundEnd(RoundContinue, 1, [50])
  {
    FiftyAccepted();
  }

  lemma FiftyAccepted()
    ensures ValidateInput("50", 1, 100, []) == Success(50)
  {
    assert Lower("50") == "50";
    assert TrimStart("50", IntBlanks) == "50";
    assert Trim("50", IntBlanks) == "50";
    assert ParseDigits("50") == Some(50);
  }

  class NumberGuessingGame {
    var minNumber: int
    var maxNumber: int
    var maxAttempts: int
    var targetNumber: int
    var attempts: nat
    var usedNumbers: seq<int>
    var gameActive: bool
    var statistics: Statistics

    /** A usable difficulty and a consistent statistics record. */
    ghost predicate Valid()
      reads this
    {
      minNumber < maxNumber && maxAttempts > 0 && Consistent(statistics)
    }

    /** During a round: the target in range, and one distinct in-range used
        number per attempt, never more attempts than the ceiling. */
    ghost predicate InRound()
      reads this
    {
      && Valid()
      && minNumber <= targetNumber <= maxNumber
      && attempts == |usedNumbers| <= maxAttempts
      && Distinct(usedNumbers)
      && AllInRange(usedNumbers, minNumber, maxNumber)
    }

    /** `NumberGuessingGame()` with its default difficulty; the statistics
        start from the defaults. */
    constructor ()
      ensures Valid()
      ensures minNumber == 1 && maxNumber == 100 && maxAttempts == 7
      ensures targetNumber == 0 && attempts == 0 && usedNumbers == [] && !gameActive
      ensures statistics == Defaults()
    {
      minNumber, maxNumber, maxAttempts := 1, 100, 7;
      targetNumber := 0;
      attempts := 0;
      usedNumbers := [];
      gameActive := false;
      statistics := Defaults();
    }

    /** `generate_number`, with the value drawn by `random.randint` given. */
    method GenerateNumber(target: int)
      requires Valid()
      requires minNumber <= target <= maxNumber
      modifies this`targetNumber, this`attempts, this`usedNumbers, this`gameActive
      ensures InRound()
      ensures targetNumber == target && attempts == 0 && usedNumbers == [] && gameActive
    {
      targetNumber := target;
      attempts := 0;
      usedNumbers := [];
      gameActive := true;
    }

    /** `get_user_guess` reading `inputs` from index `start`: the outcome is
        the one `NextGuess` gives; an accepted number is counted as an
        attempt and recorded as used, and nothing else changes the round. */
    method GetUserGuess(inputs: seq<string>, start: nat) returns (outcome: GuessOutcome, next: nat)
      requires InRound() && attempts < maxAttempts
      requires start <= |inputs|
      modifies this`attempts, this`usedNumbers
      ensures InRound()
      ensures (outcome, next) == NextGuess(Verdicts(inputs, minNumber, maxNumber, old(usedNumbers)), start)
      ensures outcome.Guessed? ==>
        attempts == old(attempts) + 1 && usedNumbers == old(usedNumbers) + [outcome.guess]
      ensures !outcome.Guessed? ==> attempts == old(attempts) && usedNumbers == old(usedNumbers)
    {
      // `validate_input` depends on nothing but the line and the state,
      // which stays as it is until a number is accepted, so the verdicts
      // can be taken up front.
      var vs := Verdicts(inputs, minNumber, maxNumber, usedNumbers);
      var i := start;
      while i < |inputs|
        invariant start <= i <= |inputs|
        invariant NextGuess(vs, i) == NextGuess(vs, start)
        invariant attempts == old(attempts) && usedNumbers == old(usedNumbers)
        decreases |inputs| - i
      {
        match vs[i] {
          case Quit =>
            return QuitRequested, i + 1;
          case Restart =>
            return RestartRequested, i + 1;
          case Success(guess) =>
            AppendFresh(usedNumbers, guess, minNumber, maxNumber);
            attempts := attempts + 1;
            usedNumbers := usedNumbers + [guess];
            return Guessed(guess), i + 1;
          case Help =>   // shows the instructions
          case ShowStats =>  // shows Summarize(statistics)
          case Error(_) =>
        }
        NextGuessPassesOver(vs, i);
        i := i + 1;
      }
      return QuitRequested, i;
    }

    /** `update_statistics`: the record of this round, with the timestamp
        given, is added to the statistics. */
    method UpdateStatistics(win: bool, date: string)
      requires Valid()
      modifies this`statistics
      ensures Valid()
      ensures statistics == Recorded(old(statistics),
        HistoryEntry(date, targetNumber, attempts, if win then Win else Lose, usedNumbers))
    {
      var entry := HistoryEntry(date, targetNumber, attempts, if win then Win else Lose, usedNumbers);
      RecordedConsistent(statistics, entry);
      var stats := statistics.(gamesPlayed := statistics.gamesPlayed + 1);
      if win {
        var streak := stats.currentStreak + 1;
        stats := stats.(gamesWon := stats.gamesWon + 1,
                        totalAttempts := stats.totalAttempts + attempts,
                        currentStreak := streak,
                        winStreak := Max(stats.winStreak, streak));
        if stats.bestScore.None? || attempts < stats.bestScore.value {
          stats := stats.(bestScore := Some(attempts));
        }
      } else {
        stats := stats.(currentStreak := 0);
      }
      stats := stats.(history := stats.history + [entry]);
      if |stats.history| > HistoryLimit {
        stats := stats.(history := stats.history[|stats.history| - HistoryLimit..]);
      }
      statistics := stats;
    }

    /** `check_guess`: the verdict and the feedback for `guess`; a win is
        recorded in the statistics, anything else changes nothing. */
    method CheckGuess(guess: int, date: string) returns (evaluation: Evaluation)
      requires Valid()
      modifies this`statistics
      ensures Valid()
      ensures evaluation == Evaluate(guess, targetNumber, minNumber, maxNumber, attempts, maxAttempts)
      ensures evaluation.Correct? ==>
        statistics == Recorded(old(statistics), HistoryEntry(date, targetNumber, attempts, Win, usedNumbers))
      ensures !evaluation.Correct? ==> statistics == old(statistics)
    {
      evaluation := Evaluate(guess, targetNumber, minNumber, maxNumber, attempts, maxAttempts);
      if evaluation.Correct? {
        UpdateStatistics(true, date);
      }
    }

    /** `play_round` with the drawn target, the input lines and the timestamp
        given: the round goes as `PlayFrom` says. QUIT and RESTART leave the
        statistics alone; CONTINUE comes after exactly one record: a win when
        the last accepted guess hit the target, otherwise a loss with every
        attempt used. */
    method PlayRound(target: int, inputs: seq<string>, date: string) returns (result: RoundResult, next: nat)
      requires Valid()
      requires minNumber <= target <= maxNumber
      modifies this`targetNumber, this`attempts, this`usedNumbers, this`gameActive, this`statistics
      ensures InRound() && targetNumber == target
      ensures PlayFrom(inputs, 0, target, minNumber, maxNumber, maxAttempts, []) ==
        RoundEnd(result, next, usedNumbers)
      ensures result == RoundQuit ==> !gameActive
      ensures gameActive <==> result != RoundQuit && target !in usedNumbers
      ensures result != RoundContinue ==>
        statistics == old(statistics) && target !in usedNumbers && attempts < maxAttempts
      ensures result == RoundContinue ==> target in usedNumbers || attempts == maxAttempts
      ensures result == RoundContinue ==>
        statistics == Recorded(old(statistics),
          HistoryEntry(date, target, attempts, if target in usedNumbers then Win else Lose, usedNumbers))
      ensures result == RoundContinue && target in usedNumbers ==>
        usedNumbers[|usedNumbers| - 1] == target && !gameActive
    {
      GenerateNumber(target);
      ghost var round := PlayFrom(inputs, 0, target, minNumber, maxNumber, maxAttempts, []);
      next := 0;
      while gameActive && attempts < maxAttempts
        invariant InRound() && targetNumber == target && gameActive
        invariant attempts < maxAttempts && target !in usedNumbers
        invariant statistics == old(statistics)
        invariant next <= |inputs|
        invariant PlayFrom(inputs, next, target, minNumber, maxNumber, maxAttempts, usedNumbers) == round
        decreases |inputs| - next
      {
        ghost var from, before := next, usedNumbers;
        var outcome;
        outcome, next := GetUserGuess(inputs, next);
        match outcome {
          case QuitRequested =>
            gameActive := false;
            return RoundQuit, next;
          case RestartRequested =>
            return RoundRestart, next;
          case Guessed(guess) =>
            var evaluation := CheckGuess(guess, date);
            if evaluation.Correct? {
              gameActive := false;
              break;
            }
            if attempts >= maxAttempts {
              UpdateStatistics(false, date);
              break;
            }
        }
      }
      result := RoundContinue;
    }

    /** `change_difficulty` reading `lines`: the first difficulty the menu
        accepts replaces the current one; at the end of the input (the
        interrupt) the difficulty stays as it was. */
    method ChangeDifficulty(lines: seq<string>)
      requires Valid()
      modifies this`minNumber, this`maxNumber, this`maxAttempts
      ensures Valid()
      ensures ChooseDifficulty(lines, 0).Some? ==>
        Difficulty(minNumber, maxNumber, maxAttempts) == ChooseDifficulty(lines, 0).value
      ensures ChooseDifficulty(lines, 0).None? ==>
        minNumber == old(minNumber) && maxNumber == old(maxNumber) && maxAttempts == old(maxAttempts)
    {
      var i := 0;
      while true
        invariant i <= |lines|
        invariant ChooseDifficulty(lines, i) == ChooseDifficulty(lines, 0)
        invariant minNumber == old(minNumber) && maxNumber == old(maxNumber) && maxAttempts == old(maxAttempts)
        decreases |lines| - i
      {
        match DifficultyStep(lines, i) {
          case Selected(d) =>
            minNumber, maxNumber, maxAttempts := d.minNumber, d.maxNumber, d.maxAttempts;
            return;
          case Rejected(_, next) =>
            i := next;
          case Interrupted =>
            return;
        }
      }
    }
  }
}
