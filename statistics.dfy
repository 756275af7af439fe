/** The statistics record of case3.py (`self.statistics`): its defaults,
    its consistency, `update_statistics` as a function on records, and the
    guards of `show_statistics`. */
module Stats {
  import opened Wrappers

  /** The 'result' field of a history entry. */
  datatype GameResult = Win | Lose

  /** One history entry; `date` is the ISO-8601 timestamp of the moment it
      was recorded, taken as an input. */
  datatype HistoryEntry = HistoryEntry(date: string, target: int, attempts: nat, result: GameResult, usedNumbers: seq<int>)

  /** The statistics dictionary; `bestScore` is `None` where the source
      keeps float('inf'). */
  datatype Statistics = Statistics(
    gamesPlayed: nat,
    gamesWon: nat,
    totalAttempts: nat,
    bestScore: Option<nat>,
    winStreak: nat,
    currentStreak: nat,
    history: seq<HistoryEntry>)

  /** How many games the history keeps. */
  const HistoryLimit: nat := 50

  /** What holds of every record built from the defaults by
      `update_statistics`. */
  predicate Consistent(s: Statistics) {
    && s.gamesWon <= s.gamesPlayed
    && s.currentStreak <= s.winStreak <= s.gamesWon
    && |s.history| <= HistoryLimit
    && (s.bestScore.None? <==> s.gamesWon == 0)
    && (s.bestScore.Some? ==> s.bestScore.value * s.gamesWon <= s.totalAttempts)
  }

  /** The defaults `load_statistics` starts from. */
  function Defaults(): (s: Statistics)
    ensures Consistent(s) && s.history == []
  {
    Statistics(0, 0, 0, None, 0, 0, [])
  }

  function Max(a: nat, b: nat): nat {
    if a < b then b else a
  }

  /** `history[-50:]` when the history is longer than 50, else unchanged. */
  function KeepRecent(h: seq<HistoryEntry>): (r: seq<HistoryEntry>)
    ensures |r| <= HistoryLimit
    ensures |h| <= HistoryLimit ==> r == h
    ensures |h| > HistoryLimit ==> |r| == HistoryLimit
    ensures forall i :: 0 <= i < |r| ==> r[i] == h[|h| - |r| + i]
  {
    if |h| > HistoryLimit then h[|h| - HistoryLimit..] else h
  }

  /** `update_statistics` for a finished game described by `entry`. */
  function Recorded(s: Statistics, entry: HistoryEntry): Statistics
  {
    var win := entry.result == Win;
    var streak := if win then s.currentStreak + 1 else 0;
    Statistics(
      gamesPlayed := s.gamesPlayed + 1,
      gamesWon := if win then s.gamesWon + 1 else s.gamesWon,
      totalAttempts := if win then s.totalAttempts + entry.attempts else s.totalAttempts,
      bestScore :=
        if win && (s.bestScore.None? || entry.attempts < s.bestScore.value) then Some(entry.attempts)
        else s.bestScore,
      winStreak := if win then Max(s.winStreak, streak) else s.winStreak,
      currentStreak := streak,
      history := KeepRecent(s.history + [entry]))
  }

  /** What recording one game does: one more game played; a win counts as
      won, adds its attempts, extends the streak, and lowers the best score
      to its attempts when that is fewer; a loss ends the streak; the best
      streak never falls below the current one; the entry joins the history. */
  lemma RecordedEffects(s: Statistics, entry: HistoryEntry)
    ensures var r := Recorded(s, entry);
      && r.gamesPlayed == s.gamesPlayed + 1
      && r.gamesWon == s.gamesWon + (if entry.result == Win then 1 else 0)
      && r.currentStreak <= r.winStreak && s.winStreak <= r.winStreak
      && (r.winStreak == s.winStreak || r.winStreak == r.currentStreak)
      && r.history == KeepRecent(s.history + [entry])
    ensures var r := Recorded(s, entry);
      entry.result == Lose ==>
        r.currentStreak == 0 && r.winStreak == s.winStreak
        && r.bestScore == s.bestScore && r.totalAttempts == s.totalAttempts
    ensures var r := Recorded(s, entry);
      entry.result == Win ==>
        && r.currentStreak == s.currentStreak + 1
        && r.totalAttempts == s.totalAttempts + entry.attempts
        && r.bestScore.Some? && r.bestScore.value <= entry.attempts
        && (s.bestScore.Some? ==> r.bestScore.value <= s.bestScore.value)
        && (r.bestScore == Some(entry.attempts) || r.bestScore == s.bestScore)
  {
  }

  /** `update_statistics` keeps the record consistent. */
  lemma RecordedConsistent(s: Statistics, entry: HistoryEntry)
    requires Consistent(s)
    ensures Consistent(Recorded(s, entry))
  {
    var r := Recorded(s, entry);
    if entry.result == Win && s.bestScore.Some? {
      var b, b' := s.bestScore.value, r.bestScore.value;
      assert b' * s.gamesWon <= b * s.gamesWon by {
        MulMonotone(b', b, s.gamesWon);
      }
      assert b' * r.gamesWon == b' * s.gamesWon + b';
    }
  }

  lemma MulMonotone(a: nat, b: nat, k: nat)
    requires a <= b
    ensures a * k <= b * k
  {
  }

  /** The records of several games in order, oldest first. */
  function RecordAll(s: Statistics, entries: seq<HistoryEntry>): Statistics
  {
    if entries == [] then s
    else Recorded(RecordAll(s, entries[..|entries| - 1]), entries[|entries| - 1])
  }

  function Wins(entries: seq<HistoryEntry>): (n: nat)
    ensures n <= |entries|
  {
    if entries == [] then 0
    else Wins(entries[..|entries| - 1]) + (if entries[|entries| - 1].result == Win then 1 else 0)
  }

  /** The number of wins at the end of `entries` since the last loss. */
  function TrailingWins(entries: seq<HistoryEntry>): (n: nat)
    ensures n <= |entries|
  {
    if entries == [] || entries[|entries| - 1].result == Lose then 0
    else TrailingWins(entries[..|entries| - 1]) + 1
  }

  /** Appending to a trimmed history and trimming again is the same as
      trimming the whole history: the oldest entries leave first. */
  lemma KeepRecentAppend(h: seq<HistoryEntry>, e: HistoryEntry)
    ensures KeepRecent(KeepRecent(h) + [e]) == KeepRecent(h + [e])
  {
    var k := KeepRecent(h);
    var a, b := KeepRecent(k + [e]), KeepRecent(h + [e]);
    assert |a| == |b|;
    forall i | 0 <= i < |a| ensures a[i] == b[i] {
      if i == |a| - 1 {
      } else {
        assert a[i] == k[|k| + 1 - |a| + i];
      }
    }
  }

  /** Over any run of games the counters add up. */
  lemma {:induction false} RecordAllCounts(s: Statistics, entries: seq<HistoryEntry>)
    ensures RecordAll(s, entries).gamesPlayed == s.gamesPlayed + |entries|
    ensures RecordAll(s, entries).gamesWon == s.gamesWon + Wins(entries)
  {
    if entries != [] {
      RecordAllCounts(s, entries[..|entries| - 1]);
    }
  }

  /** Over any run of games the history holds the most recent entries, in
      order, the oldest dropped first. */
  lemma {:induction false} RecordAllHistory(s: Statistics, entries: seq<HistoryEntry>)
    requires |s.history| <= HistoryLimit
    ensures RecordAll(s, entries).history == KeepRecent(s.history + entries)
  {
    if entries == [] {
      assert s.history + entries == s.history;
    } else {
      var init, last := entries[..|entries| - 1], entries[|entries| - 1];
      assert entries == init + [last];
      RecordAllHistory(s, init);
      RecordedEffects(RecordAll(s, init), last);
      KeepRecentAppend(s.history + init, last);
      assert (s.history + init) + [last] == s.history + entries;
    }
  }

  /** Over any run of games the current streak counts the wins since the
      last loss (continuing the starting streak when there was none). */
  lemma {:induction false} RecordAllStreak(s: Statistics, entries: seq<HistoryEntry>)
    ensures RecordAll(s, entries).currentStreak ==
      if TrailingWins(entries) == |entries| then s.currentStreak + |entries| else TrailingWins(entries)
  {
    if entries != [] {
      RecordAllStreak(s, entries[..|entries| - 1]);
    }
  }

  /** Over any run of games the best score is at most the attempts of
      every win. */
  lemma {:induction false} BestScoreAtMostEveryWin(s: Statistics, entries: seq<HistoryEntry>)
    ensures var r := RecordAll(s, entries);
      forall i :: 0 <= i < |entries| && entries[i].result == Win ==>
        r.bestScore.Some? && r.bestScore.value <= entries[i].attempts
  {
    if entries != [] {
      var init := entries[..|entries| - 1];
      BestScoreAtMostEveryWin(s, init);
      var p, r := RecordAll(s, init), RecordAll(s, entries);
      assert r == Recorded(p, entries[|entries| - 1]);
      forall i | 0 <= i < |init| && entries[i].result == Win
        ensures r.bestScore.Some? && r.bestScore.value <= entries[i].attempts
      {
        assert entries[i] == init[i];
      }
    }
  }

  /** Over any run of games a best score that changed is the attempts of
      one of the wins. */
  lemma {:induction false} BestScoreIsAttained(s: Statistics, entries: seq<HistoryEntry>)
    ensures var r := RecordAll(s, entries);
      r.bestScore.Some? && r.bestScore != s.bestScore ==>
        exists i :: 0 <= i < |entries| && entries[i].result == Win && entries[i].attempts == r.bestScore.value
  {
    if entries != [] {
      var init, last := entries[..|entries| - 1], entries[|entries| - 1];
      BestScoreIsAttained(s, init);
      var p, r := RecordAll(s, init), RecordAll(s, entries);
      assert r == Recorded(p, last);
      if r.bestScore.Some? && r.bestScore != s.bestScore {
        if r.bestScore == p.bestScore {
          var i :| 0 <= i < |init| && init[i].result == Win && init[i].attempts == p.bestScore.value;
          assert entries[i] == init[i];
        } else {
          assert entries[|entries| - 1] == last;
        }
      }
    }
  }

  /** A rational number with a positive denominator. */
  type Positive = n: nat | n > 0 witness 1

  datatype Ratio = Ratio(numerator: nat, denominator: Positive)

  /** What `show_statistics` shows: nothing when no game was played; the win
      rate and, only after a win, the mean attempts per win, as exact ratios. */
  datatype Summary =
    | NoData
    | Report(gamesPlayed: nat, gamesWon: nat, winRate: Ratio, bestScore: Option<nat>,
             averageAttempts: Option<Ratio>, currentStreak: nat, winStreak: nat)

  /** The guards of `show_statistics`: a division only by a positive count. */
  function Summarize(s: Statistics): (r: Summary)
    ensures r.NoData? <==> s.gamesPlayed == 0
    ensures r.Report? ==> r.winRate.numerator == s.gamesWon && r.winRate.denominator == s.gamesPlayed
    ensures r.Report? ==> (r.averageAttempts.Some? <==> s.gamesWon > 0)
    ensures r.Report? && r.averageAttempts.Some? ==>
      r.averageAttempts.value.numerator == s.totalAttempts && r.averageAttempts.value.denominator == s.gamesWon
  {
    if s.gamesPlayed == 0 then NoData
    else
      Report(s.gamesPlayed, s.gamesWon, Ratio(s.gamesWon, s.gamesPlayed), s.bestScore,
             if s.gamesWon > 0 then Some(Ratio(s.totalAttempts, s.gamesWon)) else None,
             s.currentStreak, s.winStreak)
  }

  /** In a consistent record the win rate is at most 100% and the mean
      attempts per win is never below the best score. */
  lemma SummaryBounds(s: Statistics)
    requires Consistent(s) && Summarize(s).Report?
    ensures Summarize(s).winRate.numerator <= Summarize(s).winRate.denominator
    ensures Summarize(s).averageAttempts.Some? ==>
      var q := Summarize(s).averageAttempts.value;
      s.bestScore.Some? && s.bestScore.value * q.denominator <= q.numerator
  {
  }
}
