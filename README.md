# Chronological NBA feature extraction, modelled in Dafny

This project models the feature-extraction engine of an NBA game-outcome
predictor. It walks the games in date order once. For each team it keeps a
`TeamHistory`:

- seven parallel rolling windows of the last five matches (points, point
  differential, win flag, field-goal %, rebounds, assists, turnovers);
- season-to-date counters (games, wins, points for, points against);
- the current win streak.

Per team it also keeps the date of its last game, and per ordered
(home, away) pairing the home-win outcomes of their last ten meetings.

A game yields a 25-value feature row and a 0/1 label only when both teams
already have five recorded matches. The row is read from the state before
the game. It goes to the training split when the game is dated before
2020-01-01 and to the test split otherwise. Every game, emitted or not, is
then recorded in both histories, the last-date map and the pairing's queue.

The project has three modules:

- `team_stats.dfy` (module `TeamStats`): a team's statistics as pure
  functions of its full match history (`Summarize`, the window and season
  readers, `WinStreak`), with the lemmas that connect them.
- `team_history.dfy` (module `History`): the class `TeamHistory`.
  - It has the seven windows as `seq` fields and the counters as `int` fields.
  - The ghost field `Matches` holds every recorded match.
  - `Valid()` states that the fields are `Summarize(Matches)`.
  - `RecordMatch` updates the fields in place; the getters are functions.
- `feature_pipeline.dfy` (module `FeaturePipeline`): the reference
  description of the pass and the imperative `ExtractFeatures`.
  - The reference gives the state after a prefix of the games as functions
    of that prefix (`TeamMatches`, `LastDate`, `H2HQueue`), the row of each
    game as `RowFor`, and the outputs as `Extract`.
  - `ExtractFeatures` is a loop over the games with three maps (team to
    `TeamHistory` object, team to last date, pairing to queue). It is proved
    to return exactly `Extract(games)`.

Conventions:

- Dates are day numbers (days since 1970-01-01), so 2020-01-01 is 18262.
- Team ids are strings.
- The head-to-head key is the ordered pair (home, away).
- Doubles are reals and Java `int`s are unbounded integers.

A game whose home and away ids are equal is not rejected by the code: the
one team records it twice, once as home and once as away. Such a game is
evidently not meant to occur, but the model follows the code, and
`SelfGameRecordedTwice` states what happens then.

## Model

| member | source | states |
|---|---|---|
| TeamStats.BoundedPush | src/main/java/com/nba/predict/TeamHistory.java:36-52 | One deque update (append, then drop the oldest entry once the size exceeds the capacity, also used for the head-to-head queues at FeaturePipeline.java:171-174): a queue within capacity stays within it, and the new entry is last |
| TeamStats.LastNPush | src/main/java/com/nba/predict/TeamHistory.java:36-52 | Keeping the last n of a growing sequence is the same as appending and then evicting the oldest entry once the size exceeds n |
| TeamStats.Rate | src/main/java/com/nba/predict/TeamHistory.java:73-79 | A win rate lies in [0, 1], is 0.0 with no entries, and otherwise times the count equals the number of wins |
| TeamStats.MeanRealBounds | src/main/java/com/nba/predict/TeamHistory.java:88-114 | A window mean of entries that all lie in [lo, hi] lies in [lo, hi] |
| TeamStats.ProjectionsAppend | src/main/java/com/nba/predict/TeamHistory.java:36-42 | Recording a match appends its scored points, allowed points, scored minus allowed, win flag and four box stats to the corresponding per-stat sequences |
| TeamStats.WindowStep | src/main/java/com/nba/predict/TeamHistory.java:36-52 | Each window of a history extended by one match is the old window after one bounded deque update with that match's entry |
| TeamStats.SeasonStep | src/main/java/com/nba/predict/TeamHistory.java:55-63 | One more match adds one win exactly when it was won, adds its scored and allowed points, and grows the streak on a win or resets it to 0 on a loss |
| TeamStats.SeasonWinsAtMostGames | src/main/java/com/nba/predict/TeamHistory.java:124-129 | Season wins never exceed season games, so the season win rate lies in [0, 1] |
| TeamStats.WinStreakIsFinalRun | src/main/java/com/nba/predict/TeamHistory.java:56-61 | The streak is the run of wins ending the history: its last WinStreak matches were won and the match before them, if any, was lost |
| TeamStats.StreakAtMostWins | src/main/java/com/nba/predict/TeamHistory.java:56-61 | The streak never exceeds the number of season wins |
| TeamStats.SumDiffs | src/main/java/com/nba/predict/TeamHistory.java:37 | The sum of the per-match differentials (points scored minus allowed) is points for minus points against |
| TeamStats.SeasonAvgPointDiffIsMean | src/main/java/com/nba/predict/TeamHistory.java:131-136 | The season average point differential equals the mean of the per-match differentials |
| TeamStats.ProjectionsLastN | src/main/java/com/nba/predict/TeamHistory.java:36-52 | Taking the last n entries of each stat is the same as projecting the last n matches |
| TeamStats.WindowSeesOnlyLastFive | src/main/java/com/nba/predict/TeamHistory.java:66-114 | Every window reader depends only on the last five matches: histories with the same last five give the same window values |
| TeamStats.ShortHistoryWindowIsSeason | src/main/java/com/nba/predict/TeamHistory.java:73-86 | With at most five matches, the window win rate and point differential equal the season ones |
| TeamStats.StepIsBoundedPush | src/main/java/com/nba/predict/TeamHistory.java:44-52 | On windows of one common length, evicting all seven together (decided on the points window) is each window's own bounded deque update |
| TeamStats.Step | src/main/java/com/nba/predict/TeamHistory.java:34-64 | One recordMatch on a state value, with eviction decided on the points window: the windows stay aligned, the points window grows by one up to five, and the game count grows by one |
| TeamStats.Summarize | src/main/java/com/nba/predict/TeamHistory.java:24-64 | The state after recording a history on a fresh team has seven windows of one common length, min(matches, 5), and a game count equal to the number of matches |
| TeamStats.SummarizeAppend | src/main/java/com/nba/predict/TeamHistory.java:34-64 | Recording one more match is one update step of the state |
| TeamStats.SummarizeWindows | src/main/java/com/nba/predict/TeamHistory.java:36-52 | Each recorded window holds exactly the last five values of its stat, in arrival order |
| TeamStats.SummarizeWins | src/main/java/com/nba/predict/TeamHistory.java:55-61 | The recorded win counter is the number of wins and the recorded streak is the final run of wins |
| TeamStats.SummarizePoints | src/main/java/com/nba/predict/TeamHistory.java:62-63 | The recorded points counters are the sums of points scored and allowed |
| History.TeamHistory.constructor | src/main/java/com/nba/predict/TeamHistory.java:24-32 | A new history is valid, empty, and has zero counters |
| History.TeamHistory.WindowsAligned | src/main/java/com/nba/predict/TeamHistory.java:36-63 | In every valid state, the seven windows share one length, min(recorded matches, 5), and 0 <= streak <= wins <= games = recorded matches |
| History.TeamHistory.RecordMatch | src/main/java/com/nba/predict/TeamHistory.java:34-64 | Recording keeps the invariant, appends the match to the history, and moves the fields by exactly one update step |
| History.TeamHistory.PushWindows | src/main/java/com/nba/predict/TeamHistory.java:36-52 | Each window becomes its bounded deque update with the match's entry (the differential entry is scored minus allowed); the counters do not change |
| History.TeamHistory.UpdateSeason | src/main/java/com/nba/predict/TeamHistory.java:55-63 | Games +1; wins +1 exactly on a win; streak +1 on a win, else 0; points totals grow by scored and allowed; the windows do not change |
| History.TeamHistory.AvgPoints | src/main/java/com/nba/predict/TeamHistory.java:66-71 | Mean points over the last five matches, 0.0 with no matches |
| History.TeamHistory.WinRate | src/main/java/com/nba/predict/TeamHistory.java:73-79 | Wins over window size for the last five matches, within [0, 1], 0.0 with no matches |
| History.TeamHistory.AvgPointDiffWindow | src/main/java/com/nba/predict/TeamHistory.java:81-86 | Mean point differential over the last five matches, 0.0 with no matches |
| History.TeamHistory.AvgFgPct | src/main/java/com/nba/predict/TeamHistory.java:88-93 | Mean field-goal % over the last five matches, 0.0 with no matches |
| History.TeamHistory.AvgReb | src/main/java/com/nba/predict/TeamHistory.java:95-100 | Mean rebounds over the last five matches, 0.0 with no matches |
| History.TeamHistory.AvgAst | src/main/java/com/nba/predict/TeamHistory.java:102-107 | Mean assists over the last five matches, 0.0 with no matches |
| History.TeamHistory.AvgTov | src/main/java/com/nba/predict/TeamHistory.java:109-114 | Mean turnovers over the last five matches, 0.0 with no matches |
| History.TeamHistory.IsReady | src/main/java/com/nba/predict/TeamHistory.java:116-118 | Ready exactly when at least five matches have been recorded |
| History.TeamHistory.GameCount | src/main/java/com/nba/predict/TeamHistory.java:120-122 | The window length, which is the number of recorded matches capped at five |
| History.TeamHistory.SeasonWinRate | src/main/java/com/nba/predict/TeamHistory.java:124-129 | Season wins over season games of the whole history, within [0, 1], 0.0 before the first game |
| History.TeamHistory.SeasonAvgPointDiff | src/main/java/com/nba/predict/TeamHistory.java:131-136 | (points for - points against) over games, which is the mean per-match differential, 0.0 before the first game |
| History.TeamHistory.CurrentWinStreak | src/main/java/com/nba/predict/TeamHistory.java:138-140 | The final run of wins of the history, between 0 and the number of season wins |
| FeaturePipeline.HomeMatch | src/main/java/com/nba/predict/FeaturePipeline.java:62-70 | The home team's view of a game: it is a win exactly when the label is 1, and its differential is home points minus away points |
| FeaturePipeline.AwayMatch | src/main/java/com/nba/predict/FeaturePipeline.java:71-79 | The away team's view mirrors the home view: scored and allowed swapped, result negated, differential negated |
| FeaturePipeline.Contribution | src/main/java/com/nba/predict/FeaturePipeline.java:62-79 | What a game adds to a team's history: one match per side the team plays, the home view first and the away view last |
| FeaturePipeline.RowFor | src/main/java/com/nba/predict/FeaturePipeline.java:37-133 | A game has a row exactly when both teams have at least five recorded matches before it, and the row then has 25 entries; it is Features of the pre-game histories, rest days and the pairing's head-to-head rate |
| FeaturePipeline.Route | src/main/java/com/nba/predict/FeaturePipeline.java:137-144 | Routing adds exactly one row; every output only grows at its end; the row lands in the training split exactly when the game is dated before 2020-01-01 |
| FeaturePipeline.RestDays | src/main/java/com/nba/predict/FeaturePipeline.java:37-42 | 10.0 for a team with no last date, else the number of days since its last game |
| FeaturePipeline.BackToBack | src/main/java/com/nba/predict/FeaturePipeline.java:43-44 | 1.0 exactly when rest days <= 1.0, and 0.0 exactly otherwise |
| FeaturePipeline.Features | src/main/java/com/nba/predict/FeaturePipeline.java:101-133 | The feature row always has 25 entries |
| FeaturePipeline.Label | src/main/java/com/nba/predict/FeaturePipeline.java:135 | The label is 1 exactly when the home team won and 0 exactly when it lost |
| FeaturePipeline.Assemble | src/main/java/com/nba/predict/FeaturePipeline.java:138-144 | Train rows and labels stay parallel, and so do test rows and labels |
| FeaturePipeline.RowCount | src/main/java/com/nba/predict/FeaturePipeline.java:146 | The processed count never exceeds the number of games |
| FeaturePipeline.TeamMatchesAppend | src/main/java/com/nba/predict/FeaturePipeline.java:62-79 | A game extends a team's history by its home view if the team is home, then by its away view if the team is away |
| FeaturePipeline.LastDateAppend | src/main/java/com/nba/predict/FeaturePipeline.java:82-83 | After a game, both of its teams' last date is its date; other teams keep theirs |
| FeaturePipeline.OutcomesAppend | src/main/java/com/nba/predict/FeaturePipeline.java:85 | A game appends its home-win flag to its own ordered pairing's outcomes only |
| FeaturePipeline.AssembleAppend | src/main/java/com/nba/predict/FeaturePipeline.java:59-146 | One more game leaves the outputs and count unchanged when it has no row, and otherwise routes its row and adds one to the count |
| FeaturePipeline.HistoryLengthIsAppearances | src/main/java/com/nba/predict/FeaturePipeline.java:62-79 | A team's history length equals the number of sides it has played |
| FeaturePipeline.RowIffBothReady | src/main/java/com/nba/predict/FeaturePipeline.java:59 | A game yields a row exactly when both of its teams have already played at least five sides |
| FeaturePipeline.DistinctTeamsRecordMirroredViews | src/main/java/com/nba/predict/FeaturePipeline.java:149-166 | With distinct teams, home records its own view and away records the mirrored one (scores swapped, result negated) |
| FeaturePipeline.BystanderUntouched | src/main/java/com/nba/predict/FeaturePipeline.java:149-170 | A team that plays neither side keeps its history and last date |
| FeaturePipeline.SelfGameRecordedTwice | src/main/java/com/nba/predict/FeaturePipeline.java:33-34 | When home and away ids are equal, the one team records both the home and the away view, two sides for one game |
| FeaturePipeline.LastDateIffHistory | src/main/java/com/nba/predict/FeaturePipeline.java:37-42 | A team has a last date exactly when its history is non-empty |
| FeaturePipeline.LastDateIsAGameDate | src/main/java/com/nba/predict/FeaturePipeline.java:169-170 | A team's last date is the date of a game in which it played |
| FeaturePipeline.FirstGameRested | src/main/java/com/nba/predict/FeaturePipeline.java:37-44 | On any input, a team with no history gets 10.0 rest days and no back-to-back flag |
| FeaturePipeline.RestDaysNonNegative | src/main/java/com/nba/predict/FeaturePipeline.java:37-42 | On date-ordered input, rest days are never negative |
| FeaturePipeline.H2HQueueBounded | src/main/java/com/nba/predict/FeaturePipeline.java:171-174 | Every pairing's queue holds at most ten outcomes, a game makes one bounded push of its home-win flag on its own queue, and the head-to-head rate lies in [0, 1] |
| FeaturePipeline.H2HOtherKeysUntouched | src/main/java/com/nba/predict/FeaturePipeline.java:47-48 | A game leaves every queue but its own ordered pairing's unchanged |
| FeaturePipeline.ReverseKeyUntouched | src/main/java/com/nba/predict/FeaturePipeline.java:47 | Between distinct teams, the reverse pairing (away, home) keeps its queue |
| FeaturePipeline.NoLeakage | src/main/java/com/nba/predict/FeaturePipeline.java:92-133 | A game's row does not depend on its own result: games with the same date and teams get the same row from the same past |
| FeaturePipeline.AssembleExtends | src/main/java/com/nba/predict/FeaturePipeline.java:138-144 | Later games never change earlier output: each split after a prefix is a prefix of the same split after more games, so each split keeps input order |
| FeaturePipeline.RoutedByDate | src/main/java/com/nba/predict/FeaturePipeline.java:138-144 | A row and its label go to the training split exactly when the game is dated before 2020-01-01, else to the test split; the other split is unchanged |
| FeaturePipeline.SkippedEmitsNothing | src/main/java/com/nba/predict/FeaturePipeline.java:59-90 | A game without a row changes no output |
| FeaturePipeline.RouteWellFormed | src/main/java/com/nba/predict/FeaturePipeline.java:135-144 | Routing a 25-entry row keeps every row at 25 entries and every label 0 or 1 |
| FeaturePipeline.AssembleWellFormed | src/main/java/com/nba/predict/FeaturePipeline.java:101-144 | When every row has 25 entries, so does every emitted row, and every label is 0 or 1 |
| FeaturePipeline.ExtractWellFormed | src/main/java/com/nba/predict/FeaturePipeline.java:101-144 | Every emitted row of the pass has 25 entries and every label is 0 or 1 |
| FeaturePipeline.RowCountIsRows | src/main/java/com/nba/predict/FeaturePipeline.java:146 | The processed count is the number of train rows plus test rows |
| FeaturePipeline.HeadToHeadRate | src/main/java/com/nba/predict/FeaturePipeline.java:49-56 | The loop counts the wins in the queue and returns their fraction, 0.0 for an empty queue, within [0, 1] |
| FeaturePipeline.ReadRow | src/main/java/com/nba/predict/FeaturePipeline.java:101-133 | The row built from the two histories' getters is the 25 features of their recorded matches, in the fixed order |
| FeaturePipeline.HistoryOf | src/main/java/com/nba/predict/FeaturePipeline.java:33-34 | Returns the team's history, or enters a fresh empty one, keeping the league consistent with the past games |
| FeaturePipeline.RecordGame | src/main/java/com/nba/predict/FeaturePipeline.java:149-166 | The home history records the home view and the away history the mirrored view; both stay valid |
| FeaturePipeline.DateMemoryStep | src/main/java/com/nba/predict/FeaturePipeline.java:169-170 | Setting both teams' last date to the game's date moves the last-date map past the game |
| FeaturePipeline.H2HMemoryStep | src/main/java/com/nba/predict/FeaturePipeline.java:171-174 | Pushing the outcome on the game's own queue moves the head-to-head map past the game |
| FeaturePipeline.ReadGame | src/main/java/com/nba/predict/FeaturePipeline.java:37-133 | From the state before the game, returns exactly the game's row (or none when a team is not ready) and its pairing's queue |
| FeaturePipeline.LookUp | src/main/java/com/nba/predict/FeaturePipeline.java:33-34 | Finds or creates both teams' histories; the league still describes the past games |
| FeaturePipeline.RecordInLeague | src/main/java/com/nba/predict/FeaturePipeline.java:149-166 | Recording the game in its teams' histories moves the whole league past the game |
| FeaturePipeline.ProcessGame | src/main/java/com/nba/predict/FeaturePipeline.java:28-175 | One iteration reads the row from the state before the game, then moves all three maps past the game |
| FeaturePipeline.Emit | src/main/java/com/nba/predict/FeaturePipeline.java:59-146 | A row is routed and counted as processed, a game without one is counted as skipped, and the outputs equal those of the reference after the game |
| FeaturePipeline.ExtractFeatures | src/main/java/com/nba/predict/FeaturePipeline.java:16-189 | The pass returns exactly the reference outputs; processed equals the number of emitted rows, processed + skipped equals the number of games, and empty input gives four empty outputs |

## Left out

- Loading the games (CSV or SQLite, in DataLoader.java) is not part of this model. The games arrive already typed, and their date order (DataLoader.java:38-41, 76-79) appears only as the `Chronological` precondition of `RestDaysNonNegative`. The pass itself needs no ordering.
- Parsing of numbers and dates (RawGame.java) is not part of this model.
- Classifier training, evaluation and plotting are not part of this model: ModelTrainer.java, WekaRandomForestEvaluator.java, ModelEvaluator.java, NBAPredictor.java and visualize_results.py.
- The four summary lines printed after the loop (FeaturePipeline.java:177-181) are left out. `ExtractFeatures` returns the processed and skipped counts instead.
- IEEE double rounding is not modelled: averages and rates are exact reals.
- Java `int` overflow of the season counters and point totals is not modelled: they are unbounded integers.
- The head-to-head key is the pair (home, away), not the string `home + "|" + away`. The string form can make two different pairings collide when an id contains `|`; the model never merges pairings.
- The head-to-head `LinkedList` deques are `seq` values in a map that the loop reassigns. The map holds values, so the aliasing of a deque object between the map and the loop variable is not modelled.
- The `double[25]` feature array is a `seq<real>`; the output lists are `seq`s built by appending.
- The two identical update blocks of the source (skip branch, FeaturePipeline.java:62-88; emit branch, 149-174) are one update that runs after the optional emission. Their effect is the same.
- Calendar dates are day numbers, so `ChronoUnit.DAYS.between` is a subtraction.
- A game whose home and away ids are equal is recorded as the code does, twice on one team. It is not rejected.
- FeaturePipeline.Features: its contract gives only the row length. The fixed order of the 25 entries is its definition, which `ReadRow` is proved to match getter by getter.
