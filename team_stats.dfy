/**
 * Pure statistics over a team's match history.
 *
 * A team's history is the sequence of every match recorded for it, oldest
 * first. The rolling-window readers of TeamHistory look at the last
 * WindowSize entries only; the season readers look at all of them. Every
 * reader is defined here once, as a function of the full history, and the
 * class in module History is proved to compute exactly these values.
 */
module TeamStats {

  /** Capacity of a team's recent-form window. */
  const WindowSize: nat := 5

  /** One recorded match, from the recording team's own perspective. */
  datatype Match = Match(scored: int, allowed: int, won: bool,
                         fgPct: real, reb: real, ast: real, tov: real)

  // ---------------------------------------------------------------------
  // Bounded FIFO windows
  // ---------------------------------------------------------------------

  /** The last n elements of s (all of s when it is shorter). */
  function LastN<T>(s: seq<T>, n: nat): (r: seq<T>)
    ensures |r| == if |s| <= n then |s| else n
  {
    if |s| <= n then s else s[|s| - n..]
  }

  /** A deque update: append x, then drop the oldest entry if the size exceeds cap. */
  function BoundedPush<T>(q: seq<T>, x: T, cap: nat): (r: seq<T>)
    ensures |q| <= cap ==> |r| <= cap
    ensures 0 < cap ==> |r| > 0 && r[|r| - 1] == x
  {
    if |q + [x]| > cap then (q + [x])[1..] else q + [x]
  }

  /** Keeping the last n of a growing sequence is the same as the bounded deque update. */
  lemma {:induction false} LastNPush<T>(s: seq<T>, x: T, n: nat)
    ensures LastN(s + [x], n) == BoundedPush(LastN(s, n), x, n)
  {
    var w := LastN(s, n);
    if |s| < n {
      assert w == s;
    } else {
      assert w == s[|s| - n..];
      assert (w + [x])[1..] == (s + [x])[|s| + 1 - n..];
    }
  }

  // ---------------------------------------------------------------------
  // Per-stat projections of a history (one per TeamHistory deque)
  // ---------------------------------------------------------------------

  /** The integer stats a team keeps a window of. */
  datatype IntStat = PointsFor | PointsAgainst | PointDiff

  /** The real-valued stats a team keeps a window of. */
  datatype RealStat = FgPct | Rebounds | Assists | Turnovers

  function IntOf(m: Match, s: IntStat): int
  {
    match s
    case PointsFor => m.scored
    case PointsAgainst => m.allowed
    case PointDiff => m.scored - m.allowed
  }

  function RealOf(m: Match, s: RealStat): real
  {
    match s
    case FgPct => m.fgPct
    case Rebounds => m.reb
    case Assists => m.ast
    case Turnovers => m.tov
  }

  /** One integer stat across a history, oldest first. */
  function IntSeq(ms: seq<Match>, s: IntStat): (r: seq<int>)
    ensures |r| == |ms|
  {
    if ms == [] then [] else IntSeq(ms[..|ms| - 1], s) + [IntOf(ms[|ms| - 1], s)]
  }

  /** One real-valued stat across a history, oldest first. */
  function RealSeq(ms: seq<Match>, s: RealStat): (r: seq<real>)
    ensures |r| == |ms|
  {
    if ms == [] then [] else RealSeq(ms[..|ms| - 1], s) + [RealOf(ms[|ms| - 1], s)]
  }

  /** The win flags across a history, oldest first. */
  function WinFlags(ms: seq<Match>): (r: seq<bool>)
    ensures |r| == |ms|
  {
    if ms == [] then [] else WinFlags(ms[..|ms| - 1]) + [ms[|ms| - 1].won]
  }

  function Scores(ms: seq<Match>): seq<int> { IntSeq(ms, PointsFor) }
  function Allowed(ms: seq<Match>): seq<int> { IntSeq(ms, PointsAgainst) }
  function Diffs(ms: seq<Match>): seq<int> { IntSeq(ms, PointDiff) }
  function FgPcts(ms: seq<Match>): seq<real> { RealSeq(ms, FgPct) }
  function Rebs(ms: seq<Match>): seq<real> { RealSeq(ms, Rebounds) }
  function Asts(ms: seq<Match>): seq<real> { RealSeq(ms, Assists) }
  function Tovs(ms: seq<Match>): seq<real> { RealSeq(ms, Turnovers) }

  /** Projecting commutes with dropping a prefix of the history. */
  lemma {:induction false} IntSeqDrop(ms: seq<Match>, k: nat, s: IntStat)
    requires k <= |ms|
    ensures IntSeq(ms[k..], s) == IntSeq(ms, s)[k..]
  {
    if k < |ms| {
      var init := ms[..|ms| - 1];
      IntSeqDrop(init, k, s);
      assert ms[k..][..|ms| - k - 1] == init[k..];
      assert ms[k..][|ms| - k - 1] == ms[|ms| - 1];
    }
  }

  lemma {:induction false} RealSeqDrop(ms: seq<Match>, k: nat, s: RealStat)
    requires k <= |ms|
    ensures RealSeq(ms[k..], s) == RealSeq(ms, s)[k..]
  {
    if k < |ms| {
      var init := ms[..|ms| - 1];
      RealSeqDrop(init, k, s);
      assert ms[k..][..|ms| - k - 1] == init[k..];
      assert ms[k..][|ms| - k - 1] == ms[|ms| - 1];
    }
  }

  lemma {:induction false} WinFlagsDrop(ms: seq<Match>, k: nat)
    requires k <= |ms|
    ensures WinFlags(ms[k..]) == WinFlags(ms)[k..]
  {
    if k < |ms| {
      var init := ms[..|ms| - 1];
      WinFlagsDrop(init, k);
      assert ms[k..][..|ms| - k - 1] == init[k..];
      assert ms[k..][|ms| - k - 1] == ms[|ms| - 1];
    }
  }

  // ---------------------------------------------------------------------
  // Sums, counts, means
  // ---------------------------------------------------------------------

  function SumInt(s: seq<int>): int
  {
    if s == [] then 0 else SumInt(s[..|s| - 1]) + s[|s| - 1]
  }

  function SumReal(s: seq<real>): real
  {
    if s == [] then 0.0 else SumReal(s[..|s| - 1]) + s[|s| - 1]
  }

  /** Number of true entries; never more than the length. */
  function CountTrue(s: seq<bool>): (r: nat)
    ensures r <= |s|
  {
    if s == [] then 0 else CountTrue(s[..|s| - 1]) + (if s[|s| - 1] then 1 else 0)
  }

  /** Arithmetic mean of integer entries, 0.0 for no entries. */
  function MeanInt(s: seq<int>): real
  {
    if |s| == 0 then 0.0 else SumInt(s) as real / |s| as real
  }

  /** Arithmetic mean of real entries, 0.0 for no entries. */
  function MeanReal(s: seq<real>): real
  {
    if |s| == 0 then 0.0 else SumReal(s) / |s| as real
  }

  /** Fraction of true entries, 0.0 for no entries; always within [0, 1]. */
  function Rate(s: seq<bool>): (r: real)
    ensures 0.0 <= r <= 1.0
    ensures |s| == 0 ==> r == 0.0
    ensures |s| > 0 ==> r * |s| as real == CountTrue(s) as real
  {
    if |s| == 0 then 0.0 else CountTrue(s) as real / |s| as real
  }

  /** A mean of entries that all lie in [lo, hi] lies in [lo, hi]. */
  lemma {:induction false} SumRealBounds(s: seq<real>, lo: real, hi: real)
    requires forall k :: 0 <= k < |s| ==> lo <= s[k] <= hi
    ensures |s| as real * lo <= SumReal(s) <= |s| as real * hi
  {
    if s != [] {
      SumRealBounds(s[..|s| - 1], lo, hi);
    }
  }

  lemma MeanRealBounds(s: seq<real>, lo: real, hi: real)
    requires |s| > 0
    requires forall k :: 0 <= k < |s| ==> lo <= s[k] <= hi
    ensures lo <= MeanReal(s) <= hi
  {
    SumRealBounds(s, lo, hi);
    var n := |s| as real;
    assert MeanReal(s) * n == SumReal(s);
  }

  // ---------------------------------------------------------------------
  // The readers of a team's state, as functions of its whole history
  // ---------------------------------------------------------------------

  function WindowAvgPoints(ms: seq<Match>): real { MeanInt(LastN(Scores(ms), WindowSize)) }
  function WindowWinRate(ms: seq<Match>): real { Rate(LastN(WinFlags(ms), WindowSize)) }
  function WindowAvgPointDiff(ms: seq<Match>): real { MeanInt(LastN(Diffs(ms), WindowSize)) }
  function WindowAvgFgPct(ms: seq<Match>): real { MeanReal(LastN(FgPcts(ms), WindowSize)) }
  function WindowAvgReb(ms: seq<Match>): real { MeanReal(LastN(Rebs(ms), WindowSize)) }
  function WindowAvgAst(ms: seq<Match>): real { MeanReal(LastN(Asts(ms), WindowSize)) }
  function WindowAvgTov(ms: seq<Match>): real { MeanReal(LastN(Tovs(ms), WindowSize)) }

  /** Season wins over season games, 0.0 before the first game. */
  function SeasonWinRate(ms: seq<Match>): real
  {
    if |ms| == 0 then 0.0 else CountTrue(WinFlags(ms)) as real / |ms| as real
  }

  /** (points for - points against) over season games, 0.0 before the first game. */
  function SeasonAvgPointDiff(ms: seq<Match>): real
  {
    if |ms| == 0 then 0.0 else (SumInt(Scores(ms)) - SumInt(Allowed(ms))) as real / |ms| as real
  }

  /**
   * The current win streak: the number of wins at the end of the history,
   * i.e. the longest suffix made only of wins.
   */
  function WinStreak(ms: seq<Match>): (r: nat)
    ensures r <= |ms|
  {
    if ms == [] then 0
    else if ms[|ms| - 1].won then WinStreak(ms[..|ms| - 1]) + 1
    else 0
  }

  // ---------------------------------------------------------------------
  // Properties of the readers
  // ---------------------------------------------------------------------

  /** The empty history has empty projections. */
  lemma ProjectionsEmpty()
    ensures Scores([]) == Allowed([]) == Diffs([]) == [] && WinFlags([]) == []
    ensures FgPcts([]) == Rebs([]) == Asts([]) == Tovs([]) == []
  {
  }

  /** Appending a match extends each projection by that match's entry. */
  lemma ProjectionsAppend(ms: seq<Match>, m: Match)
    ensures Scores(ms + [m]) == Scores(ms) + [m.scored]
    ensures Allowed(ms + [m]) == Allowed(ms) + [m.allowed]
    ensures Diffs(ms + [m]) == Diffs(ms) + [m.scored - m.allowed]
    ensures WinFlags(ms + [m]) == WinFlags(ms) + [m.won]
    ensures FgPcts(ms + [m]) == FgPcts(ms) + [m.fgPct]
    ensures Rebs(ms + [m]) == Rebs(ms) + [m.reb]
    ensures Asts(ms + [m]) == Asts(ms) + [m.ast]
    ensures Tovs(ms + [m]) == Tovs(ms) + [m.tov]
  {
    assert (ms + [m])[..|ms|] == ms;
  }

  /** Recording a match moves every window by one bounded deque update. */
  lemma WindowStep(ms: seq<Match>, m: Match)
    ensures LastN(Scores(ms + [m]), WindowSize) == BoundedPush(LastN(Scores(ms), WindowSize), m.scored, WindowSize)
    ensures LastN(Diffs(ms + [m]), WindowSize) == BoundedPush(LastN(Diffs(ms), WindowSize), m.scored - m.allowed, WindowSize)
    ensures LastN(WinFlags(ms + [m]), WindowSize) == BoundedPush(LastN(WinFlags(ms), WindowSize), m.won, WindowSize)
    ensures LastN(FgPcts(ms + [m]), WindowSize) == BoundedPush(LastN(FgPcts(ms), WindowSize), m.fgPct, WindowSize)
    ensures LastN(Rebs(ms + [m]), WindowSize) == BoundedPush(LastN(Rebs(ms), WindowSize), m.reb, WindowSize)
    ensures LastN(Asts(ms + [m]), WindowSize) == BoundedPush(LastN(Asts(ms), WindowSize), m.ast, WindowSize)
    ensures LastN(Tovs(ms + [m]), WindowSize) == BoundedPush(LastN(Tovs(ms), WindowSize), m.tov, WindowSize)
  {
    ProjectionsAppend(ms, m);
    LastNPush(Scores(ms), m.scored, WindowSize);
    LastNPush(Diffs(ms), m.scored - m.allowed, WindowSize);
    LastNPush(WinFlags(ms), m.won, WindowSize);
    LastNPush(FgPcts(ms), m.fgPct, WindowSize);
    LastNPush(Rebs(ms), m.reb, WindowSize);
    LastNPush(Asts(ms), m.ast, WindowSize);
    LastNPush(Tovs(ms), m.tov, WindowSize);
  }

  /** Recording a match moves every season counter and the streak by that match alone. */
  lemma SeasonStep(ms: seq<Match>, m: Match)
    ensures CountTrue(WinFlags(ms + [m])) == CountTrue(WinFlags(ms)) + (if m.won then 1 else 0)
    ensures SumInt(Scores(ms + [m])) == SumInt(Scores(ms)) + m.scored
    ensures SumInt(Allowed(ms + [m])) == SumInt(Allowed(ms)) + m.allowed
    ensures WinStreak(ms + [m]) == if m.won then WinStreak(ms) + 1 else 0
  {
    ProjectionsAppend(ms, m);
    InitOfSnoc(ms, m);
    InitOfSnoc(WinFlags(ms), m.won);
    InitOfSnoc(Scores(ms), m.scored);
    InitOfSnoc(Allowed(ms), m.allowed);
  }

  lemma InitOfSnoc<T>(s: seq<T>, x: T)
    ensures (s + [x])[..|s|] == s && (s + [x])[|s|] == x
  {
  }

  /** The season counters are consistent: the win count never exceeds the game count. */
  lemma SeasonWinsAtMostGames(ms: seq<Match>)
    ensures CountTrue(WinFlags(ms)) <= |ms|
    ensures 0.0 <= SeasonWinRate(ms) <= 1.0
  {
    assert SeasonWinRate(ms) == Rate(WinFlags(ms));
  }

  /**
   * The streak is exactly the run of wins that ends the history: the last
   * WinStreak(ms) matches were all won, and the match just before them (if
   * any) was lost.
   */
  lemma {:induction false} WinStreakIsFinalRun(ms: seq<Match>)
    ensures forall k :: |ms| - WinStreak(ms) <= k < |ms| ==> ms[k].won
    ensures WinStreak(ms) < |ms| ==> !ms[|ms| - 1 - WinStreak(ms)].won
  {
    if ms != [] && ms[|ms| - 1].won {
      var init := ms[..|ms| - 1];
      WinStreakIsFinalRun(init);
      assert forall k :: 0 <= k < |init| ==> init[k] == ms[k];
    }
  }

  /** The win streak never exceeds the number of wins in the season. */
  lemma {:induction false} StreakAtMostWins(ms: seq<Match>)
    ensures WinStreak(ms) <= CountTrue(WinFlags(ms))
  {
    if ms != [] {
      var init := ms[..|ms| - 1];
      StreakAtMostWins(init);
      ProjectionsAppend(init, ms[|ms| - 1]);
      assert ms == init + [ms[|ms| - 1]];
      assert WinFlags(ms)[..|ms| - 1] == WinFlags(init);
    }
  }

  /** The season point-differential numerator is the sum of the per-match differentials. */
  lemma {:induction false} SumDiffs(ms: seq<Match>)
    ensures SumInt(Diffs(ms)) == SumInt(Scores(ms)) - SumInt(Allowed(ms))
  {
    if ms != [] {
      var init := ms[..|ms| - 1];
      SumDiffs(init);
      ProjectionsAppend(init, ms[|ms| - 1]);
      assert ms == init + [ms[|ms| - 1]];
      assert Diffs(ms)[..|ms| - 1] == Diffs(init);
      assert Scores(ms)[..|ms| - 1] == Scores(init);
      assert Allowed(ms)[..|ms| - 1] == Allowed(init);
    }
  }

  /** Season average point differential is the mean of the per-match differentials. */
  lemma SeasonAvgPointDiffIsMean(ms: seq<Match>)
    ensures SeasonAvgPointDiff(ms) == MeanInt(Diffs(ms))
  {
    SumDiffs(ms);
  }

  /** Projections commute with taking the last n matches. */
  lemma ProjectionsLastN(ms: seq<Match>, n: nat)
    ensures LastN(Scores(ms), n) == Scores(LastN(ms, n))
    ensures LastN(Diffs(ms), n) == Diffs(LastN(ms, n))
    ensures LastN(WinFlags(ms), n) == WinFlags(LastN(ms, n))
    ensures LastN(FgPcts(ms), n) == FgPcts(LastN(ms, n))
    ensures LastN(Rebs(ms), n) == Rebs(LastN(ms, n))
    ensures LastN(Asts(ms), n) == Asts(LastN(ms, n))
    ensures LastN(Tovs(ms), n) == Tovs(LastN(ms, n))
  {
    if |ms| > n {
      IntSeqDrop(ms, |ms| - n, PointsFor);
      IntSeqDrop(ms, |ms| - n, PointDiff);
      WinFlagsDrop(ms, |ms| - n);
      RealSeqDrop(ms, |ms| - n, FgPct);
      RealSeqDrop(ms, |ms| - n, Rebounds);
      RealSeqDrop(ms, |ms| - n, Assists);
      RealSeqDrop(ms, |ms| - n, Turnovers);
    }
  }

  /**
   * Every window reader depends only on the last WindowSize matches: once a
   * sixth match arrives, the oldest one no longer influences any of them.
   */
  lemma WindowSeesOnlyLastFive(ms1: seq<Match>, ms2: seq<Match>)
    requires LastN(ms1, WindowSize) == LastN(ms2, WindowSize)
    ensures WindowAvgPoints(ms1) == WindowAvgPoints(ms2)
    ensures WindowWinRate(ms1) == WindowWinRate(ms2)
    ensures WindowAvgPointDiff(ms1) == WindowAvgPointDiff(ms2)
    ensures WindowAvgFgPct(ms1) == WindowAvgFgPct(ms2)
    ensures WindowAvgReb(ms1) == WindowAvgReb(ms2)
    ensures WindowAvgAst(ms1) == WindowAvgAst(ms2)
    ensures WindowAvgTov(ms1) == WindowAvgTov(ms2)
  {
    ProjectionsLastN(ms1, WindowSize);
    ProjectionsLastN(ms2, WindowSize);
  }

  /** With at most WindowSize matches, the window and season readers agree. */
  lemma ShortHistoryWindowIsSeason(ms: seq<Match>)
    requires |ms| <= WindowSize
    ensures WindowWinRate(ms) == SeasonWinRate(ms)
    ensures WindowAvgPointDiff(ms) == SeasonAvgPointDiff(ms)
  {
    SeasonAvgPointDiffIsMean(ms);
  }

  // ---------------------------------------------------------------------
  // The team state as a value, and its update
  // ---------------------------------------------------------------------

  /**
   * Everything a team keeps: the seven windows (oldest entry first) and the
   * season counters. History.TeamHistory holds exactly these as fields.
   */
  datatype TeamState = TeamState(
    points: seq<int>, pointDiff: seq<int>, wins: seq<bool>,
    fgPct: seq<real>, reb: seq<real>, ast: seq<real>, tov: seq<real>,
    games: int, winCount: int, pointsFor: int, pointsAgainst: int, streak: int)

  const Fresh: TeamState := TeamState([], [], [], [], [], [], [], 0, 0, 0, 0, 0)

  /** The seven windows share one length, at most WindowSize. */
  ghost predicate Aligned(st: TeamState)
  {
    |st.pointDiff| == |st.wins| == |st.fgPct| == |st.reb| == |st.ast| == |st.tov|
      == |st.points| <= WindowSize
  }

  /** Append x, then, when `evict` holds, drop the oldest entry. */
  function Shift<T>(q: seq<T>, x: T, evict: bool): seq<T>
  {
    if evict then (q + [x])[1..] else q + [x]
  }

  /**
   * Recording one match: every window gets the new entry; when the points
   * window has grown past WindowSize, all seven drop their oldest entry
   * together. The counters advance and the streak grows or resets.
   */
  function Step(st: TeamState, m: Match): (st': TeamState)
    requires Aligned(st)
    ensures Aligned(st')
    ensures |st'.points| == if |st.points| < WindowSize then |st.points| + 1 else WindowSize
    ensures st'.games == st.games + 1
  {
    var evict := |st.points| + 1 > WindowSize;
    TeamState(
      Shift(st.points, m.scored, evict),
      Shift(st.pointDiff, m.scored - m.allowed, evict),
      Shift(st.wins, m.won, evict),
      Shift(st.fgPct, m.fgPct, evict),
      Shift(st.reb, m.reb, evict),
      Shift(st.ast, m.ast, evict),
      Shift(st.tov, m.tov, evict),
      st.games + 1,
      st.winCount + (if m.won then 1 else 0),
      st.pointsFor + m.scored,
      st.pointsAgainst + m.allowed,
      if m.won then st.streak + 1 else 0)
  }

  /** On aligned windows, the shared eviction is each window's own bounded deque update. */
  lemma StepIsBoundedPush(st: TeamState, m: Match)
    requires Aligned(st)
    ensures Step(st, m).points == BoundedPush(st.points, m.scored, WindowSize)
    ensures Step(st, m).pointDiff == BoundedPush(st.pointDiff, m.scored - m.allowed, WindowSize)
    ensures Step(st, m).wins == BoundedPush(st.wins, m.won, WindowSize)
    ensures Step(st, m).fgPct == BoundedPush(st.fgPct, m.fgPct, WindowSize)
    ensures Step(st, m).reb == BoundedPush(st.reb, m.reb, WindowSize)
    ensures Step(st, m).ast == BoundedPush(st.ast, m.ast, WindowSize)
    ensures Step(st, m).tov == BoundedPush(st.tov, m.tov, WindowSize)
  {
  }

  /** The state reached by recording every match of a history, in order, on a fresh team. */
  function Summarize(ms: seq<Match>): (st: TeamState)
    ensures Aligned(st)
    ensures |st.points| == if |ms| < WindowSize then |ms| else WindowSize
    ensures st.games == |ms|
  {
    if ms == [] then Fresh else Step(Summarize(ms[..|ms| - 1]), ms[|ms| - 1])
  }

  /** Recording one more match is one Step. */
  lemma SummarizeAppend(ms: seq<Match>, m: Match)
    ensures Summarize(ms + [m]) == Step(Summarize(ms), m)
  {
    assert (ms + [m])[..|ms|] == ms;
  }

  /** Each recorded window holds exactly the last WindowSize values of its stat, in arrival order. */
  lemma {:induction false} SummarizeWindows(ms: seq<Match>)
    ensures Summarize(ms).points == LastN(Scores(ms), WindowSize)
    ensures Summarize(ms).pointDiff == LastN(Diffs(ms), WindowSize)
    ensures Summarize(ms).wins == LastN(WinFlags(ms), WindowSize)
    ensures Summarize(ms).fgPct == LastN(FgPcts(ms), WindowSize)
    ensures Summarize(ms).reb == LastN(Rebs(ms), WindowSize)
    ensures Summarize(ms).ast == LastN(Asts(ms), WindowSize)
    ensures Summarize(ms).tov == LastN(Tovs(ms), WindowSize)
  {
    if ms == [] {
      ProjectionsEmpty();
    } else {
      var init, m := ms[..|ms| - 1], ms[|ms| - 1];
      SummarizeWindows(init);
      assert ms == init + [m];
      StepIsBoundedPush(Summarize(init), m);
      WindowStep(init, m);
    }
  }

  /** The recorded win counter is the season's wins, and the streak is the final run of wins. */
  lemma {:induction false} SummarizeWins(ms: seq<Match>)
    ensures Summarize(ms).winCount == CountTrue(WinFlags(ms))
    ensures Summarize(ms).streak == WinStreak(ms)
  {
    if ms != [] {
      var init, m := ms[..|ms| - 1], ms[|ms| - 1];
      SummarizeWins(init);
      assert ms == init + [m];
      SeasonStep(init, m);
    }
  }

  /** The recorded point counters are the season's points for and against. */
  lemma {:induction false} SummarizePoints(ms: seq<Match>)
    ensures Summarize(ms).pointsFor == SumInt(Scores(ms))
    ensures Summarize(ms).pointsAgainst == SumInt(Allowed(ms))
  {
    if ms != [] {
      var init, m := ms[..|ms| - 1], ms[|ms| - 1];
      SummarizePoints(init);
      assert ms == init + [m];
      SeasonStep(init, m);
    }
  }
}
