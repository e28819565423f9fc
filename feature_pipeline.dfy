/**
 * The chronological feature-extraction pass.
 *
 * One loop walks the games in order. Per team it keeps a TeamHistory, the
 * date of its last game and, per ordered (home, away) pair, the outcomes of
 * their last ten meetings. A game whose two teams both have a full window
 * yields a 25-value feature row, read BEFORE the game is recorded, and a
 * label; the row goes to the training split when the game is dated before
 * 2020-01-01 and to the test split otherwise. Every game, emitted or not,
 * is then recorded.
 *
 * The reference side describes the state reached after a prefix of the
 * games as functions of that prefix (TeamMatches, LastDate, H2HQueue) and
 * the output as Extract; ExtractFeatures is proved to compute exactly
 * Extract(games).
 */
module FeaturePipeline {
  import opened TeamStats
  import opened History

  type TeamId = string

  /** A calendar date as a day number (days since 1970-01-01). */
  type Date = int

  /** 2020-01-01: games strictly before it train, the rest test. */
  const SplitDate: Date := 18262

  /** Rest days assumed before a team's first game. */
  const FirstGameRest: real := 10.0

  /** Meetings kept per ordered (home, away) pair. */
  const H2HCapacity: nat := 10

  /** Entries in a feature row. */
  const FeatureCount: nat := 25

  datatype Option<T> = None | Some(value: T)

  /** One typed input game. */
  datatype Game = Game(date: Date, home: TeamId, away: TeamId,
                       ptsHome: int, ptsAway: int, homeWin: bool,
                       fgPctHome: real, fgPctAway: real,
                       rebHome: real, rebAway: real,
                       astHome: real, astAway: real,
                       tovHome: real, tovAway: real)

  /** The head-to-head key: the ordered (home, away) pair. */
  type PairKey = (TeamId, TeamId)

  function Key(g: Game): PairKey { (g.home, g.away) }

  /** The four parallel outputs. */
  datatype FeatureData = FeatureData(trainFeatures: seq<seq<real>>, trainLabels: seq<int>,
                                     testFeatures: seq<seq<real>>, testLabels: seq<int>)

  const NoData: FeatureData := FeatureData([], [], [], [])

  // ---------------------------------------------------------------------
  // What a game records for each side
  // ---------------------------------------------------------------------

  /** The home team's view of the game. */
  function HomeMatch(g: Game): (m: Match)
    ensures m.won <==> Label(g) == 1
    ensures m.scored - m.allowed == g.ptsHome - g.ptsAway
  {
    Match(g.ptsHome, g.ptsAway, g.homeWin, g.fgPctHome, g.rebHome, g.astHome, g.tovHome)
  }

  /** The away team's view: the same game with scores and outcome mirrored. */
  function AwayMatch(g: Game): (m: Match)
    ensures m.scored == HomeMatch(g).allowed && m.allowed == HomeMatch(g).scored
    ensures m.won == !HomeMatch(g).won
    ensures m.scored - m.allowed == -(HomeMatch(g).scored - HomeMatch(g).allowed)
  {
    Match(g.ptsAway, g.ptsHome, !g.homeWin, g.fgPctAway, g.rebAway, g.astAway, g.tovAway)
  }

  /**
   * What a game adds to team t's history: its home view if t is the home
   * team, then its away view if t is the away team (both, in that order,
   * when a team plays itself).
   */
  function Contribution(g: Game, t: TeamId): (c: seq<Match>)
    ensures |c| == (if g.home == t then 1 else 0) + (if g.away == t then 1 else 0)
    ensures g.home == t ==> c[0] == HomeMatch(g)
    ensures g.away == t ==> c[|c| - 1] == AwayMatch(g)
  {
    (if g.home == t then [HomeMatch(g)] else []) + (if g.away == t then [AwayMatch(g)] else [])
  }

  /** Team t's recorded history after the games gs. */
  function TeamMatches(gs: seq<Game>, t: TeamId): seq<Match>
  {
    if gs == [] then [] else TeamMatches(gs[..|gs| - 1], t) + Contribution(gs[|gs| - 1], t)
  }

  /** Number of sides (home or away) team t played in gs. */
  function Appearances(gs: seq<Game>, t: TeamId): nat
  {
    if gs == [] then 0
    else Appearances(gs[..|gs| - 1], t)
         + (if gs[|gs| - 1].home == t then 1 else 0) + (if gs[|gs| - 1].away == t then 1 else 0)
  }

  /** The date of team t's most recent game in gs, if any. */
  function LastDate(gs: seq<Game>, t: TeamId): Option<Date>
  {
    if gs == [] then None
    else if gs[|gs| - 1].home == t || gs[|gs| - 1].away == t then Some(gs[|gs| - 1].date)
    else LastDate(gs[..|gs| - 1], t)
  }

  /** Home-win outcomes of every game in gs played with the given (home, away) key. */
  function Outcomes(gs: seq<Game>, k: PairKey): seq<bool>
  {
    if gs == [] then []
    else Outcomes(gs[..|gs| - 1], k) + (if Key(gs[|gs| - 1]) == k then [gs[|gs| - 1].homeWin] else [])
  }

  /** The head-to-head queue: the last H2HCapacity of those outcomes. */
  function H2HQueue(gs: seq<Game>, k: PairKey): seq<bool>
  {
    LastN(Outcomes(gs, k), H2HCapacity)
  }

  // ---------------------------------------------------------------------
  // Schedule and head-to-head features
  // ---------------------------------------------------------------------

  /** Days since the last game, or FirstGameRest before the first one. */
  function RestDays(last: Option<Date>, d: Date): (r: real)
    ensures last.None? ==> r == FirstGameRest
    ensures last.Some? ==> r == (d - last.value) as real
  {
    match last
    case None => FirstGameRest
    case Some(prev) => (d - prev) as real
  }

  /** 1.0 when the team plays on the next day (or the same day), else 0.0. */
  function BackToBack(rest: real): (r: real)
    ensures r == 1.0 <==> rest <= 1.0
    ensures r == 0.0 <==> rest > 1.0
  {
    if rest <= 1.0 then 1.0 else 0.0
  }

  /**
   * The 25 features, in their fixed order: window means of points, win
   * rate, field-goal %, rebounds, assists and turnovers (home then away for
   * each), window point differential, season win rate, season average point
   * differential, rest days, back-to-back flags, win streaks, and the
   * head-to-head win rate.
   */
  function Features(hm: seq<Match>, am: seq<Match>, homeRest: real, awayRest: real,
                    h2hRate: real): (row: seq<real>)
    ensures |row| == FeatureCount
  {
    [WindowAvgPoints(hm), WindowAvgPoints(am),
     WindowWinRate(hm), WindowWinRate(am),
     WindowAvgFgPct(hm), WindowAvgFgPct(am),
     WindowAvgReb(hm), WindowAvgReb(am),
     WindowAvgAst(hm), WindowAvgAst(am),
     WindowAvgTov(hm), WindowAvgTov(am),
     WindowAvgPointDiff(hm), WindowAvgPointDiff(am),
     SeasonWinRate(hm), SeasonWinRate(am),
     SeasonAvgPointDiff(hm), SeasonAvgPointDiff(am),
     homeRest, awayRest,
     BackToBack(homeRest), BackToBack(awayRest),
     WinStreak(hm) as real, WinStreak(am) as real,
     h2hRate]
  }

  /** 1 when the home team won, else 0. */
  function Label(g: Game): (l: int)
    ensures l == 1 <==> g.homeWin
    ensures l == 0 <==> !g.homeWin
  {
    if g.homeWin then 1 else 0
  }

  /**
   * The row game g yields after the games gs, or None when either team has
   * fewer than WindowSize recorded matches. Only gs and g's date and teams
   * are read: never g's own result.
   */
  function RowFor(gs: seq<Game>, g: Game): (r: Option<seq<real>>)
    ensures r.Some? <==> |TeamMatches(gs, g.home)| >= WindowSize && |TeamMatches(gs, g.away)| >= WindowSize
    ensures r.Some? ==> |r.value| == FeatureCount
  {
    var hm := TeamMatches(gs, g.home);
    var am := TeamMatches(gs, g.away);
    if |hm| >= WindowSize && |am| >= WindowSize then
      Some(Features(hm, am,
                    RestDays(LastDate(gs, g.home), g.date),
                    RestDays(LastDate(gs, g.away), g.date),
                    Rate(H2HQueue(gs, Key(g)))))
    else None
  }

  /** Adds a row and its label to the split the game's date selects. */
  function Route(d: FeatureData, g: Game, row: seq<real>): (r: FeatureData)
    ensures Extends(d, r)
    ensures |r.trainFeatures| + |r.testFeatures| == |d.trainFeatures| + |d.testFeatures| + 1
    ensures |r.trainFeatures| == |d.trainFeatures| + 1 <==> g.date < SplitDate
  {
    if g.date < SplitDate then d.(trainFeatures := d.trainFeatures + [row], trainLabels := d.trainLabels + [Label(g)])
    else d.(testFeatures := d.testFeatures + [row], testLabels := d.testLabels + [Label(g)])
  }

  /** Every row has FeatureCount entries and every label is 0 or 1. */
  ghost predicate WellFormed(d: FeatureData)
  {
    && (forall row <- d.trainFeatures :: |row| == FeatureCount)
    && (forall row <- d.testFeatures :: |row| == FeatureCount)
    && (forall l <- d.trainLabels :: l == 0 || l == 1)
    && (forall l <- d.testLabels :: l == 0 || l == 1)
  }

  /** How a game's row, if it has one, is computed from the games before it. */
  type RowRule = (seq<Game>, Game) -> Option<seq<real>>

  /**
   * The outputs of a pass over gs in which each game's row comes from rule:
   * rows are routed by date in game order, games without a row add nothing.
   * Each split is a parallel (rows, labels) pair.
   */
  function Assemble(gs: seq<Game>, rule: RowRule): (d: FeatureData)
    ensures |d.trainFeatures| == |d.trainLabels| && |d.testFeatures| == |d.testLabels|
  {
    if gs == [] then NoData
    else
      var prefix := gs[..|gs| - 1];
      var g := gs[|gs| - 1];
      match rule(prefix, g)
      case None => Assemble(prefix, rule)
      case Some(row) => Route(Assemble(prefix, rule), g, row)
  }

  /** Number of games in gs that have a row under rule. */
  function RowCount(gs: seq<Game>, rule: RowRule): (n: nat)
    ensures n <= |gs|
  {
    if gs == [] then 0
    else RowCount(gs[..|gs| - 1], rule) + (if rule(gs[..|gs| - 1], gs[|gs| - 1]).Some? then 1 else 0)
  }

  /** The whole output of the feature pass over gs. */
  function Extract(gs: seq<Game>): FeatureData
  {
    Assemble(gs, RowFor)
  }

  /** Number of games of gs the pass emits a row for. */
  function Emitted(gs: seq<Game>): nat
  {
    RowCount(gs, RowFor)
  }

  // ---------------------------------------------------------------------
  // One step of the reference
  // ---------------------------------------------------------------------

  lemma TeamMatchesAppend(gs: seq<Game>, g: Game, t: TeamId)
    ensures TeamMatches(gs + [g], t) == TeamMatches(gs, t) + Contribution(g, t)
  {
    assert (gs + [g])[..|gs|] == gs;
  }

  lemma LastDateAppend(gs: seq<Game>, g: Game, t: TeamId)
    ensures LastDate(gs + [g], t) == if g.home == t || g.away == t then Some(g.date) else LastDate(gs, t)
  {
    assert (gs + [g])[..|gs|] == gs;
  }

  lemma OutcomesAppend(gs: seq<Game>, g: Game, k: PairKey)
    ensures Outcomes(gs + [g], k) == Outcomes(gs, k) + (if Key(g) == k then [g.homeWin] else [])
  {
    assert (gs + [g])[..|gs|] == gs;
  }

  lemma AssembleAppend(gs: seq<Game>, g: Game, rule: RowRule)
    ensures Assemble(gs + [g], rule) == match rule(gs, g)
                                        case None => Assemble(gs, rule)
                                        case Some(row) => Route(Assemble(gs, rule), g, row)
    ensures RowCount(gs + [g], rule) == RowCount(gs, rule) + (if rule(gs, g).Some? then 1 else 0)
  {
    assert (gs + [g])[..|gs|] == gs;
  }

  // ---------------------------------------------------------------------
  // Properties of the reference
  // ---------------------------------------------------------------------

  /** A team's history grows by one match per side it plays: its length counts its appearances. */
  lemma {:induction false} HistoryLengthIsAppearances(gs: seq<Game>, t: TeamId)
    ensures |TeamMatches(gs, t)| == Appearances(gs, t)
  {
    if gs != [] {
      HistoryLengthIsAppearances(gs[..|gs| - 1], t);
    }
  }

  /**
   * A game that yields a row is exactly one whose two teams each played at
   * least WindowSize sides before it.
   */
  lemma RowIffBothReady(gs: seq<Game>, g: Game)
    ensures RowFor(gs, g).Some? <==> Appearances(gs, g.home) >= WindowSize && Appearances(gs, g.away) >= WindowSize
  {
    HistoryLengthIsAppearances(gs, g.home);
    HistoryLengthIsAppearances(gs, g.away);
  }

  /** For distinct teams, the home team records its own view and the away team the mirrored one. */
  lemma DistinctTeamsRecordMirroredViews(gs: seq<Game>, g: Game)
    requires g.home != g.away
    ensures TeamMatches(gs + [g], g.home) == TeamMatches(gs, g.home) + [HomeMatch(g)]
    ensures TeamMatches(gs + [g], g.away) == TeamMatches(gs, g.away) + [AwayMatch(g)]
    ensures AwayMatch(g).scored == HomeMatch(g).allowed && AwayMatch(g).allowed == HomeMatch(g).scored
    ensures AwayMatch(g).won == !HomeMatch(g).won
  {
    TeamMatchesAppend(gs, g, g.home);
    TeamMatchesAppend(gs, g, g.away);
  }

  /** A team that plays neither side of a game is left untouched by it. */
  lemma BystanderUntouched(gs: seq<Game>, g: Game, t: TeamId)
    requires t != g.home && t != g.away
    ensures TeamMatches(gs + [g], t) == TeamMatches(gs, t)
    ensures LastDate(gs + [g], t) == LastDate(gs, t)
  {
    TeamMatchesAppend(gs, g, t);
    LastDateAppend(gs, g, t);
  }

  /**
   * A game whose home and away ids are equal is recorded twice on the one
   * team: its home view and then its away view, a win and a loss.
   */
  lemma SelfGameRecordedTwice(gs: seq<Game>, g: Game)
    requires g.home == g.away
    ensures TeamMatches(gs + [g], g.home) == TeamMatches(gs, g.home) + [HomeMatch(g), AwayMatch(g)]
    ensures Appearances(gs + [g], g.home) == Appearances(gs, g.home) + 2
  {
    TeamMatchesAppend(gs, g, g.home);
    HistoryLengthIsAppearances(gs, g.home);
    HistoryLengthIsAppearances(gs + [g], g.home);
  }

  /** A team has a last date exactly when it has a history. */
  lemma {:induction false} LastDateIffHistory(gs: seq<Game>, t: TeamId)
    ensures LastDate(gs, t).None? <==> TeamMatches(gs, t) == []
  {
    if gs != [] {
      LastDateIffHistory(gs[..|gs| - 1], t);
    }
  }

  /** Non-decreasing dates, as the loader delivers them. */
  ghost predicate Chronological(gs: seq<Game>)
  {
    forall i, j :: 0 <= i < j < |gs| ==> gs[i].date <= gs[j].date
  }

  /** The last date of a team is the date of one of the games. */
  lemma {:induction false} LastDateIsAGameDate(gs: seq<Game>, t: TeamId)
    requires LastDate(gs, t).Some?
    ensures exists i :: 0 <= i < |gs| && gs[i].date == LastDate(gs, t).value
              && (gs[i].home == t || gs[i].away == t)
  {
    var n := |gs| - 1;
    if !(gs[n].home == t || gs[n].away == t) {
      LastDateIsAGameDate(gs[..n], t);
      var i :| 0 <= i < n && gs[..n][i].date == LastDate(gs[..n], t).value
               && (gs[..n][i].home == t || gs[..n][i].away == t);
      assert gs[i] == gs[..n][i];
    }
  }

  /**
   * Before a team's first game its rest days are FirstGameRest, so it is
   * never back-to-back, whatever the game's date.
   */
  lemma FirstGameRested(gs: seq<Game>, g: Game, t: TeamId)
    ensures TeamMatches(gs, t) == [] ==> RestDays(LastDate(gs, t), g.date) == FirstGameRest
    ensures TeamMatches(gs, t) == [] ==> BackToBack(RestDays(LastDate(gs, t), g.date)) == 0.0
  {
    LastDateIffHistory(gs, t);
  }

  /** Rest days are never negative when the games come in date order. */
  lemma RestDaysNonNegative(gs: seq<Game>, g: Game, t: TeamId)
    requires Chronological(gs + [g])
    ensures RestDays(LastDate(gs, t), g.date) >= 0.0
  {
    LastDateIffHistory(gs, t);
    if LastDate(gs, t).Some? {
      LastDateIsAGameDate(gs, t);
      var i :| 0 <= i < |gs| && gs[i].date == LastDate(gs, t).value && (gs[i].home == t || gs[i].away == t);
      assert (gs + [g])[i] == gs[i];
      assert (gs + [g])[|gs|] == g;
    }
  }

  /** Every head-to-head queue holds at most H2HCapacity outcomes, the most recent last. */
  lemma H2HQueueBounded(gs: seq<Game>, g: Game)
    ensures forall k :: |H2HQueue(gs, k)| <= H2HCapacity
    ensures H2HQueue(gs + [g], Key(g)) == BoundedPush(H2HQueue(gs, Key(g)), g.homeWin, H2HCapacity)
    ensures 0.0 <= Rate(H2HQueue(gs, Key(g))) <= 1.0
  {
    OutcomesAppend(gs, g, Key(g));
    LastNPush(Outcomes(gs, Key(g)), g.homeWin, H2HCapacity);
  }

  /**
   * A game touches only its own ordered key: in particular the reverse
   * pairing (away, home) keeps its queue.
   */
  lemma H2HOtherKeysUntouched(gs: seq<Game>, g: Game, k: PairKey)
    requires k != Key(g)
    ensures H2HQueue(gs + [g], k) == H2HQueue(gs, k)
  {
    OutcomesAppend(gs, g, k);
  }

  /** Between distinct teams, the reverse pairing (away, home) keeps its queue. */
  lemma ReverseKeyUntouched(gs: seq<Game>, g: Game)
    requires g.home != g.away
    ensures H2HQueue(gs + [g], (g.away, g.home)) == H2HQueue(gs, (g.away, g.home))
  {
    H2HOtherKeysUntouched(gs, g, (g.away, g.home));
  }

  /**
   * The row of a game does not depend on its own result: two games that
   * agree on date and teams get the same row from the same past.
   */
  lemma NoLeakage(gs: seq<Game>, g1: Game, g2: Game)
    requires g1.date == g2.date && g1.home == g2.home && g1.away == g2.away
    ensures RowFor(gs, g1) == RowFor(gs, g2)
  {
  }

  /** Each output of d is a prefix of the same output of e. */
  predicate Extends(d: FeatureData, e: FeatureData)
  {
    d.trainFeatures <= e.trainFeatures && d.trainLabels <= e.trainLabels
    && d.testFeatures <= e.testFeatures && d.testLabels <= e.testLabels
  }

  lemma PrefixTrans<T>(a: seq<T>, b: seq<T>, c: seq<T>)
    requires a <= b && b <= c
    ensures a <= c
  {
    assert c[..|a|] == b[..|b|][..|a|];
  }

  lemma ExtendsTrans(d: FeatureData, e: FeatureData, f: FeatureData)
    requires Extends(d, e) && Extends(e, f)
    ensures Extends(d, f)
  {
    PrefixTrans(d.trainFeatures, e.trainFeatures, f.trainFeatures);
    PrefixTrans(d.trainLabels, e.trainLabels, f.trainLabels);
    PrefixTrans(d.testFeatures, e.testFeatures, f.testFeatures);
    PrefixTrans(d.testLabels, e.testLabels, f.testLabels);
  }

  /**
   * Later games never change what earlier games emitted: each output after
   * gs is a prefix of the same output after gs + more.
   */
  lemma {:induction false} AssembleExtends(gs: seq<Game>, more: seq<Game>, rule: RowRule)
    ensures Extends(Assemble(gs, rule), Assemble(gs + more, rule))
  {
    if more == [] {
      assert gs + more == gs;
    } else {
      var init := more[..|more| - 1];
      var last := more[|more| - 1];
      AssembleExtends(gs, init, rule);
      assert gs + more == (gs + init) + [last];
      AssembleAppend(gs + init, last, rule);
      assert Extends(Assemble(gs + init, rule), Assemble(gs + more, rule));
      ExtendsTrans(Assemble(gs, rule), Assemble(gs + init, rule), Assemble(gs + more, rule));
    }
  }

  /**
   * A game with a row adds it, with its label, to the training split when
   * dated before SplitDate and to the test split otherwise; the other split
   * is unchanged.
   */
  lemma RoutedByDate(gs: seq<Game>, g: Game, rule: RowRule)
    requires rule(gs, g).Some?
    ensures g.date < SplitDate ==>
              Assemble(gs + [g], rule).trainFeatures == Assemble(gs, rule).trainFeatures + [rule(gs, g).value]
              && Assemble(gs + [g], rule).trainLabels == Assemble(gs, rule).trainLabels + [Label(g)]
              && Assemble(gs + [g], rule).testFeatures == Assemble(gs, rule).testFeatures
              && Assemble(gs + [g], rule).testLabels == Assemble(gs, rule).testLabels
    ensures g.date >= SplitDate ==>
              Assemble(gs + [g], rule).testFeatures == Assemble(gs, rule).testFeatures + [rule(gs, g).value]
              && Assemble(gs + [g], rule).testLabels == Assemble(gs, rule).testLabels + [Label(g)]
              && Assemble(gs + [g], rule).trainFeatures == Assemble(gs, rule).trainFeatures
              && Assemble(gs + [g], rule).trainLabels == Assemble(gs, rule).trainLabels
  {
    AssembleAppend(gs, g, rule);
  }

  /** A game without a row changes no output. */
  lemma SkippedEmitsNothing(gs: seq<Game>, g: Game, rule: RowRule)
    requires rule(gs, g).None?
    ensures Assemble(gs + [g], rule) == Assemble(gs, rule)
  {
    AssembleAppend(gs, g, rule);
  }

  /** Routing a full-length row keeps the outputs well formed. */
  lemma RouteWellFormed(d: FeatureData, g: Game, row: seq<real>)
    requires WellFormed(d) && |row| == FeatureCount
    ensures WellFormed(Route(d, g, row))
  {
    var l := Label(g);
    assert l == 0 || l == 1;
  }

  /** When every row the rule yields has FeatureCount entries, so does every emitted row; every label is 0 or 1. */
  lemma {:induction false} AssembleWellFormed(gs: seq<Game>, rule: RowRule)
    requires forall p, g :: rule(p, g).Some? ==> |rule(p, g).value| == FeatureCount
    ensures WellFormed(Assemble(gs, rule))
  {
    if gs != [] {
      var prefix := gs[..|gs| - 1];
      AssembleWellFormed(prefix, rule);
      match rule(prefix, gs[|gs| - 1])
      case None =>
      case Some(row) => RouteWellFormed(Assemble(prefix, rule), gs[|gs| - 1], row);
    }
  }

  /** Every row of the feature pass has FeatureCount entries and every label is 0 or 1. */
  lemma ExtractWellFormed(gs: seq<Game>)
    ensures WellFormed(Extract(gs))
  {
    forall p, g | RowFor(p, g).Some?
      ensures |RowFor(p, g).value| == FeatureCount
    {
    }
    AssembleWellFormed(gs, RowFor);
  }

  /** The row count is the total number of rows, train plus test. */
  lemma {:induction false} RowCountIsRows(gs: seq<Game>, rule: RowRule)
    ensures RowCount(gs, rule) == |Assemble(gs, rule).trainFeatures| + |Assemble(gs, rule).testFeatures|
  {
    if gs != [] {
      RowCountIsRows(gs[..|gs| - 1], rule);
    }
  }

  // ---------------------------------------------------------------------
  // The imperative pass
  // ---------------------------------------------------------------------

  /** Head-to-head win rate: wins counted one by one over the queue, 0.0 for an empty queue. */
  method HeadToHeadRate(q: seq<bool>) returns (rate: real)
    ensures rate == Rate(q)
    ensures 0.0 <= rate <= 1.0
  {
    rate := 0.0;
    if |q| > 0 {
      var wins := 0;
      var k := 0;
      while k < |q|
        invariant 0 <= k <= |q|
        invariant wins == CountTrue(q[..k])
      {
        assert q[..k + 1][..k] == q[..k];
        if q[k] {
          wins := wins + 1;
        }
        k := k + 1;
      }
      assert q[..k] == q;
      rate := wins as real / |q| as real;
    }
  }

  /** The 25-entry row read from the two histories before either records the game. */
  method ReadRow(home: TeamHistory, away: TeamHistory, homeRest: real, awayRest: real, h2hRate: real)
    returns (row: seq<real>)
    requires home.Valid() && away.Valid()
    ensures row == Features(home.Matches, away.Matches, homeRest, awayRest, h2hRate)
  {
    row := [home.AvgPoints(), away.AvgPoints(),
            home.WinRate(), away.WinRate(),
            home.AvgFgPct(), away.AvgFgPct(),
            home.AvgReb(), away.AvgReb(),
            home.AvgAst(), away.AvgAst(),
            home.AvgTov(), away.AvgTov(),
            home.AvgPointDiffWindow(), away.AvgPointDiffWindow(),
            home.SeasonWinRate(), away.SeasonWinRate(),
            home.SeasonAvgPointDiff(), away.SeasonAvgPointDiff(),
            homeRest, awayRest,
            BackToBack(homeRest), BackToBack(awayRest),
            home.CurrentWinStreak() as real, away.CurrentWinStreak() as real,
            h2hRate];
  }

  /**
   * The team's history, created empty (and entered in the league) on its
   * first game; the league still describes the games before.
   */
  method HistoryOf(ghost past: seq<Game>, league: map<TeamId, TeamHistory>, t: TeamId)
    returns (h: TeamHistory, league': map<TeamId, TeamHistory>)
    requires LeagueMemory(past, league)
    ensures t in league ==> h == league[t] && league' == league
    ensures t !in league ==> fresh(h) && h.Matches == [] && league' == league[t := h]
    ensures LeagueMemory(past, league') && t in league' && h == league'[t]
    ensures forall u :: u in league' ==> (u in league && league'[u] == league[u]) || fresh(league'[u])
  {
    if t in league {
      h, league' := league[t], league;
    } else {
      h := new TeamHistory();
      league' := league[t := h];
      forall u | u in league'
        ensures league'[u].Valid() && league'[u].Matches == TeamMatches(past, u)
      {
      }
    }
  }

  /**
   * Both sides of a game are recorded: the home history takes the home
   * view, then the away history takes the mirrored away view. When a team
   * plays itself the two are one object, which records both.
   */
  method RecordGame(g: Game, home: TeamHistory, away: TeamHistory)
    requires home.Valid() && away.Valid()
    requires home == away <==> g.home == g.away
    modifies home, away
    ensures home.Valid() && away.Valid()
    ensures home.Matches == old(home.Matches) + Contribution(g, g.home)
    ensures away.Matches == old(away.Matches) + Contribution(g, g.away)
  {
    home.RecordMatch(g.ptsHome, g.ptsAway, g.homeWin, g.fgPctHome, g.rebHome, g.astHome, g.tovHome);
    away.RecordMatch(g.ptsAway, g.ptsHome, !g.homeWin, g.fgPctAway, g.rebAway, g.astAway, g.tovAway);
  }

  /**
   * The league after the games gs: one valid history per team that has
   * played, holding exactly that team's matches, no history shared by two
   * teams, and no history for a team that has not played.
   */
  ghost predicate LeagueMemory(gs: seq<Game>, league: map<TeamId, TeamHistory>)
    reads set t | t in league :: league[t]
  {
    && (forall t :: t in league ==> league[t].Valid() && league[t].Matches == TeamMatches(gs, t))
    && (forall t :: t !in league ==> TeamMatches(gs, t) == [])
    && (forall t, u :: t in league && u in league && t != u ==> league[t] != league[u])
  }

  /** The last-game dates after the games gs: an entry exactly for the teams that have played. */
  ghost predicate DateMemory(gs: seq<Game>, lastGameDate: map<TeamId, Date>)
  {
    && (forall t :: t in lastGameDate <==> LastDate(gs, t).Some?)
    && (forall t :: t in lastGameDate ==> lastGameDate[t] == LastDate(gs, t).value)
  }

  /** The head-to-head queues after the games gs: an entry for each pairing that has met. */
  ghost predicate H2HMemory(gs: seq<Game>, h2h: map<PairKey, seq<bool>>)
  {
    && (forall k :: k in h2h ==> h2h[k] == H2HQueue(gs, k))
    && (forall k :: k !in h2h ==> Outcomes(gs, k) == [])
  }

  /** Both teams' last date becomes the game's date; every other entry stays. */
  lemma DateMemoryStep(gs: seq<Game>, g: Game, lastGameDate: map<TeamId, Date>)
    requires DateMemory(gs, lastGameDate)
    ensures DateMemory(gs + [g], lastGameDate[g.home := g.date][g.away := g.date])
  {
    forall t {
      LastDateAppend(gs, g, t);
    }
  }

  /** The game's outcome is pushed on its own pairing's queue; every other queue stays. */
  lemma H2HMemoryStep(gs: seq<Game>, g: Game, h2h: map<PairKey, seq<bool>>, queue: seq<bool>)
    requires H2HMemory(gs, h2h)
    requires queue == if Key(g) in h2h then h2h[Key(g)] else []
    ensures H2HMemory(gs + [g], h2h[Key(g) := BoundedPush(queue, g.homeWin, H2HCapacity)])
  {
    forall k {
      OutcomesAppend(gs, g, k);
    }
    H2HQueueBounded(gs, g);
  }

  /**
   * Reads everything a game's row needs from the state BEFORE the game is
   * recorded: rest days and back-to-back flags from the last dates, the
   * head-to-head rate from the pairing's queue (also returned, for the
   * update), and the row itself when both teams are ready.
   */
  method ReadGame(ghost past: seq<Game>, g: Game, home: TeamHistory, away: TeamHistory,
                  lastGameDate: map<TeamId, Date>, h2h: map<PairKey, seq<bool>>)
    returns (row: Option<seq<real>>, queue: seq<bool>)
    requires home.Valid() && home.Matches == TeamMatches(past, g.home)
    requires away.Valid() && away.Matches == TeamMatches(past, g.away)
    requires DateMemory(past, lastGameDate) && H2HMemory(past, h2h)
    ensures row == RowFor(past, g)
    ensures queue == H2HQueue(past, Key(g))
  {
    var homeRest := RestDays(if g.home in lastGameDate then Some(lastGameDate[g.home]) else None, g.date);
    var awayRest := RestDays(if g.away in lastGameDate then Some(lastGameDate[g.away]) else None, g.date);
    queue := if Key(g) in h2h then h2h[Key(g)] else [];
    var h2hRate := HeadToHeadRate(queue);
    if !home.IsReady() || !away.IsReady() {
      row := None;
    } else {
      var features := ReadRow(home, away, homeRest, awayRest, h2hRate);
      row := Some(features);
    }
  }

  /** Both teams' histories, entered in the league first when a team has not played yet. */
  method LookUp(ghost past: seq<Game>, g: Game, league: map<TeamId, TeamHistory>)
    returns (home: TeamHistory, away: TeamHistory, league': map<TeamId, TeamHistory>)
    requires LeagueMemory(past, league)
    ensures LeagueMemory(past, league')
    ensures g.home in league' && g.away in league' && home == league'[g.home] && away == league'[g.away]
    ensures forall t :: t in league' ==> (t in league && league'[t] == league[t]) || fresh(league'[t])
  {
    home, league' := HistoryOf(past, league, g.home);
    away, league' := HistoryOf(past, league', g.away);
  }

  /** Recording a game in the two histories the league holds for its teams moves the league past it. */
  method RecordInLeague(ghost past: seq<Game>, g: Game, league: map<TeamId, TeamHistory>,
                        home: TeamHistory, away: TeamHistory)
    requires LeagueMemory(past, league)
    requires g.home in league && g.away in league && home == league[g.home] && away == league[g.away]
    modifies home, away
    ensures LeagueMemory(past + [g], league)
  {
    RecordGame(g, home, away);
    forall t | t in league
      ensures league[t].Valid() && league[t].Matches == TeamMatches(past + [g], t)
    {
      TeamMatchesAppend(past, g, t);
    }
    forall t | t !in league
      ensures TeamMatches(past + [g], t) == []
    {
      TeamMatchesAppend(past, g, t);
    }
  }

  /**
   * One iteration of the pass, outputs aside: look up (or create) both
   * histories, read the game's row from the state before the game, then
   * record the game in the histories, the last dates and the pairing's
   * queue.
   */
  method ProcessGame(ghost past: seq<Game>, g: Game, league: map<TeamId, TeamHistory>,
                     lastGameDate: map<TeamId, Date>, h2h: map<PairKey, seq<bool>>)
    returns (row: Option<seq<real>>, league': map<TeamId, TeamHistory>,
             lastGameDate': map<TeamId, Date>, h2h': map<PairKey, seq<bool>>)
    requires LeagueMemory(past, league) && DateMemory(past, lastGameDate) && H2HMemory(past, h2h)
    modifies set t | t in league :: league[t]
    ensures row == RowFor(past, g)
    ensures LeagueMemory(past + [g], league')
    ensures forall t :: t in league' ==> (t in league && league'[t] == league[t]) || fresh(league'[t])
    ensures DateMemory(past + [g], lastGameDate') && H2HMemory(past + [g], h2h')
  {
    var home, away;
    home, away, league' := LookUp(past, g, league);
    var queue;
    row, queue := ReadGame(past, g, home, away, lastGameDate, h2h);
    RecordInLeague(past, g, league', home, away);
    DateMemoryStep(past, g, lastGameDate);
    H2HMemoryStep(past, g, h2h, queue);
    lastGameDate' := lastGameDate[g.home := g.date][g.away := g.date];
    h2h' := h2h[Key(g) := BoundedPush(queue, g.homeWin, H2HCapacity)];
  }

  /**
   * The output half of an iteration: a game with a row adds it to the split
   * its date selects and counts as processed; a game without one counts as
   * skipped.
   */
  method Emit(ghost past: seq<Game>, g: Game, ghost rule: RowRule, row: Option<seq<real>>,
              data: FeatureData, processed: nat, skipped: nat)
    returns (data': FeatureData, processed': nat, skipped': nat)
    requires row == rule(past, g)
    requires data == Assemble(past, rule) && processed == RowCount(past, rule)
    ensures data' == Assemble(past + [g], rule) && processed' == RowCount(past + [g], rule)
    ensures processed' + skipped' == processed + skipped + 1
  {
    match row {
      case None =>
        data', processed', skipped' := data, processed, skipped + 1;
      case Some(features) =>
        data', processed', skipped' := Route(data, g, features), processed + 1, skipped;
    }
    AssembleAppend(past, g, rule);
  }

  lemma TakeStep<T>(s: seq<T>, i: nat)
    requires i < |s|
    ensures s[..i + 1] == s[..i] + [s[i]]
  {
  }

  /**
   * The pass. Returns the four outputs with the processed and skipped
   * counts (which the source only prints).
   */
  method ExtractFeatures(games: seq<Game>) returns (data: FeatureData, processed: nat, skipped: nat)
    ensures data == Extract(games)
    ensures processed == Emitted(games) == |data.trainFeatures| + |data.testFeatures|
    ensures processed + skipped == |games|
    ensures games == [] ==> data == NoData
  {
    var league: map<TeamId, TeamHistory> := map[];
    var lastGameDate: map<TeamId, Date> := map[];
    var h2h: map<PairKey, seq<bool>> := map[];
    data, processed, skipped := NoData, 0, 0;

    for i := 0 to |games|
      invariant LeagueMemory(games[..i], league)
      invariant forall t :: t in league ==> fresh(league[t])
      invariant DateMemory(games[..i], lastGameDate) && H2HMemory(games[..i], h2h)
      invariant data == Assemble(games[..i], RowFor) && processed == RowCount(games[..i], RowFor)
      invariant processed + skipped == i
    {
      var g := games[i];
      var row;
      row, league, lastGameDate, h2h := ProcessGame(games[..i], g, league, lastGameDate, h2h);
      data, processed, skipped := Emit(games[..i], g, RowFor, row, data, processed, skipped);
      TakeStep(games, i);
    }
    assert games[..|games|] == games;
    RowCountIsRows(games, RowFor);
  }
}
