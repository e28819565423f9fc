/**
 * Per-team rolling state: seven parallel bounded windows of the most recent
 * matches, the season-to-date counters and the current win streak.
 *
 * The ghost field Matches is the full history of recorded matches; Valid()
 * states that the fields are the TeamStats.Summarize state of that history,
 * so (by the TeamStats lemmas) each window is exactly the last WindowSize
 * entries of its stat, all seven windows have the same length, and the
 * counters are the season totals of the history.
 */
module History {
  import opened TeamStats

  class TeamHistory {
    /** Every match recorded so far, oldest first. */
    ghost var Matches: seq<Match>

    var recentPoints: seq<int>
    var recentPointDiff: seq<int>
    var recentWins: seq<bool>
    var recentFgPct: seq<real>
    var recentReb: seq<real>
    var recentAst: seq<real>
    var recentTov: seq<real>

    var seasonGames: int
    var seasonWins: int
    var seasonPointsFor: int
    var seasonPointsAgainst: int
    var currentWinStreak: int

    /** The fields, read as a TeamState value. */
    ghost function State(): TeamState
      reads this
    {
      TeamState(recentPoints, recentPointDiff, recentWins, recentFgPct, recentReb, recentAst, recentTov,
                seasonGames, seasonWins, seasonPointsFor, seasonPointsAgainst, currentWinStreak)
    }

    /** The fields are the state reached by recording Matches, in order, on a fresh team. */
    ghost predicate Valid()
      reads this
    {
      State() == Summarize(Matches)
    }

    /** A fresh team: empty windows, zero counters. */
    constructor ()
      ensures Valid() && Matches == []
      ensures State() == Fresh
    {
      Matches := [];
      recentPoints, recentPointDiff, recentWins := [], [], [];
      recentFgPct, recentReb, recentAst, recentTov := [], [], [], [];
      seasonGames, seasonWins, seasonPointsFor, seasonPointsAgainst := 0, 0, 0, 0;
      currentWinStreak := 0;
    }

    /**
     * The window invariant: the seven windows always have one common length,
     * which is the number of recorded matches capped at WindowSize; and the
     * counters are consistent with each other.
     */
    lemma WindowsAligned()
      requires Valid()
      ensures |recentPoints| == |recentPointDiff| == |recentWins| == |recentFgPct|
              == |recentReb| == |recentAst| == |recentTov|
              == if |Matches| < WindowSize then |Matches| else WindowSize
      ensures 0 <= currentWinStreak <= seasonWins <= seasonGames == |Matches|
    {
      SummarizeWins(Matches);
      StreakAtMostWins(Matches);
    }

    /**
     * Records one match: the windows take the new entries, then the season
     * counters and the streak are updated.
     */
    method RecordMatch(pointsScored: int, pointsAllowed: int, won: bool,
                       fgPct: real, reb: real, ast: real, tov: real)
      requires Valid()
      modifies this
      ensures Valid()
      ensures Matches == old(Matches) + [Match(pointsScored, pointsAllowed, won, fgPct, reb, ast, tov)]
      ensures State() == Step(old(State()), Match(pointsScored, pointsAllowed, won, fgPct, reb, ast, tov))
    {
      var m := Match(pointsScored, pointsAllowed, won, fgPct, reb, ast, tov);
      StepIsBoundedPush(State(), m);
      PushWindows(m);
      UpdateSeason(m);
      SummarizeAppend(Matches, m);
      Matches := Matches + [m];
    }

    /**
     * Appends the match's entry to every window; once the windows would hold
     * more than WindowSize entries, all seven lose their oldest entry together.
     */
    method PushWindows(m: Match)
      requires Aligned(State())
      modifies this
      ensures recentPoints == BoundedPush(old(recentPoints), m.scored, WindowSize)
      ensures recentPointDiff == BoundedPush(old(recentPointDiff), m.scored - m.allowed, WindowSize)
      ensures recentWins == BoundedPush(old(recentWins), m.won, WindowSize)
      ensures recentFgPct == BoundedPush(old(recentFgPct), m.fgPct, WindowSize)
      ensures recentReb == BoundedPush(old(recentReb), m.reb, WindowSize)
      ensures recentAst == BoundedPush(old(recentAst), m.ast, WindowSize)
      ensures recentTov == BoundedPush(old(recentTov), m.tov, WindowSize)
      ensures seasonGames == old(seasonGames) && seasonWins == old(seasonWins)
      ensures seasonPointsFor == old(seasonPointsFor) && seasonPointsAgainst == old(seasonPointsAgainst)
      ensures currentWinStreak == old(currentWinStreak)
      ensures Matches == old(Matches)
    {
      var points := recentPoints + [m.scored];
      var pointDiff := recentPointDiff + [m.scored - m.allowed];
      var wins := recentWins + [m.won];
      var fg := recentFgPct + [m.fgPct];
      var rebs := recentReb + [m.reb];
      var asts := recentAst + [m.ast];
      var tovs := recentTov + [m.tov];
      if |points| > WindowSize {
        points, pointDiff, wins := points[1..], pointDiff[1..], wins[1..];
        fg, rebs, asts, tovs := fg[1..], rebs[1..], asts[1..], tovs[1..];
      }
      recentPoints, recentPointDiff, recentWins, recentFgPct, recentReb, recentAst, recentTov
        := points, pointDiff, wins, fg, rebs, asts, tovs;
    }

    /** One more game; one more win and a longer streak, or a reset streak; the points totals grow. */
    method UpdateSeason(m: Match)
      modifies this
      ensures seasonGames == old(seasonGames) + 1
      ensures seasonWins == old(seasonWins) + (if m.won then 1 else 0)
      ensures currentWinStreak == (if m.won then old(currentWinStreak) + 1 else 0)
      ensures seasonPointsFor == old(seasonPointsFor) + m.scored
      ensures seasonPointsAgainst == old(seasonPointsAgainst) + m.allowed
      ensures recentPoints == old(recentPoints) && recentPointDiff == old(recentPointDiff)
      ensures recentWins == old(recentWins) && recentFgPct == old(recentFgPct)
      ensures recentReb == old(recentReb) && recentAst == old(recentAst) && recentTov == old(recentTov)
      ensures Matches == old(Matches)
    {
      seasonGames := seasonGames + 1;
      if m.won {
        seasonWins := seasonWins + 1;
        currentWinStreak := currentWinStreak + 1;
      } else {
        currentWinStreak := 0;
      }
      seasonPointsFor := seasonPointsFor + m.scored;
      seasonPointsAgainst := seasonPointsAgainst + m.allowed;
    }

    /** Mean points scored over the window; 0.0 before the first match. */
    function AvgPoints(): (r: real)
      reads this
      requires Valid()
      ensures r == WindowAvgPoints(Matches)
      ensures Matches == [] ==> r == 0.0
    {
      SummarizeWindows(Matches);
      MeanInt(recentPoints)
    }

    /** Wins in the window over the window size; within [0, 1], 0.0 before the first match. */
    function WinRate(): (r: real)
      reads this
      requires Valid()
      ensures r == WindowWinRate(Matches)
      ensures 0.0 <= r <= 1.0
      ensures Matches == [] ==> r == 0.0
    {
      SummarizeWindows(Matches);
      Rate(recentWins)
    }

    /** Mean point differential over the window; 0.0 before the first match. */
    function AvgPointDiffWindow(): (r: real)
      reads this
      requires Valid()
      ensures r == WindowAvgPointDiff(Matches)
      ensures Matches == [] ==> r == 0.0
    {
      SummarizeWindows(Matches);
      MeanInt(recentPointDiff)
    }

    function AvgFgPct(): (r: real)
      reads this
      requires Valid()
      ensures r == WindowAvgFgPct(Matches)
      ensures Matches == [] ==> r == 0.0
    {
      SummarizeWindows(Matches);
      MeanReal(recentFgPct)
    }

    function AvgReb(): (r: real)
      reads this
      requires Valid()
      ensures r == WindowAvgReb(Matches)
      ensures Matches == [] ==> r == 0.0
    {
      SummarizeWindows(Matches);
      MeanReal(recentReb)
    }

    function AvgAst(): (r: real)
      reads this
      requires Valid()
      ensures r == WindowAvgAst(Matches)
      ensures Matches == [] ==> r == 0.0
    {
      SummarizeWindows(Matches);
      MeanReal(recentAst)
    }

    function AvgTov(): (r: real)
      reads this
      requires Valid()
      ensures r == WindowAvgTov(Matches)
      ensures Matches == [] ==> r == 0.0
    {
      SummarizeWindows(Matches);
      MeanReal(recentTov)
    }

    /** Ready exactly when WindowSize matches have been recorded. */
    function IsReady(): (r: bool)
      reads this
      requires Valid()
      ensures r <==> |Matches| >= WindowSize
    {
      |recentPoints| >= WindowSize
    }

    /** The window length: the number of recorded matches, capped at WindowSize. */
    function GameCount(): (r: int)
      reads this
      requires Valid()
      ensures r == if |Matches| < WindowSize then |Matches| else WindowSize
    {
      |recentPoints|
    }

    /** Season wins over season games; within [0, 1], 0.0 before the first match. */
    function SeasonWinRate(): (r: real)
      reads this
      requires Valid()
      ensures r == TeamStats.SeasonWinRate(Matches)
      ensures 0.0 <= r <= 1.0
    {
      SummarizeWins(Matches);
      SeasonWinsAtMostGames(Matches);
      if seasonGames == 0 then 0.0 else seasonWins as real / seasonGames as real
    }

    /** Net season points over season games, i.e. the mean per-match differential. */
    function SeasonAvgPointDiff(): (r: real)
      reads this
      requires Valid()
      ensures r == TeamStats.SeasonAvgPointDiff(Matches)
      ensures r == MeanInt(Diffs(Matches))
    {
      SummarizePoints(Matches);
      SeasonAvgPointDiffIsMean(Matches);
      if seasonGames == 0 then 0.0
      else (seasonPointsFor - seasonPointsAgainst) as real / seasonGames as real
    }

    /** The number of consecutive wins ending with the latest match. */
    function CurrentWinStreak(): (r: int)
      reads this
      requires Valid()
      ensures r == WinStreak(Matches)
      ensures 0 <= r <= CountTrue(WinFlags(Matches)) <= |Matches|
    {
      SummarizeWins(Matches);
      StreakAtMostWins(Matches);
      currentWinStreak
    }
  }
}
