# Football fixtures: season statistics pipeline

A Dafny model of the analytical part of the `Fixture` model of a football-history
repository (`models/fixtures.py`). The store, the SQL queries and the data frames are
replaced by pure functions over a sequence of `Fixture` records:

- **Selection** (`Fixtures.SeasonResults`): a team's finished (`"FT"`) fixtures of one season,
  with the team on either side.
- **Team perspective and form** (`SeasonStats`): each selected fixture is tagged with the
  side the team played (`Home`/`Away`) and the name on that side. The rows are sorted by
  date and labelled win, draw or loss.
- **Season aggregation** (`SeasonStats.Aggregate`): rows are grouped by (side, name). Each
  group gets its games, wins, draws, loses, goal sums and a form string. The goal sums are
  computed as the code computes them (`HomeAwayColumns`: raw `goals_home`/`goals_away`).
  A corrected variant (`TeamPerspective`) sums the team's own goals.
- **Round filter** (`Rounds.FilterByRounds`): `"all_finished"`, `"last_5"` or a round number N.
  Mode N reads the number from labels such as `"Regular Season - 12"`.
- **Refresh dates** (`Refresh.DatesToUpdate`): every day from the earliest not-started fixture
  of season `"2023"` through today.
- **Bulk update** (`BulkUpdate.Update`): records whose id is already stored overwrite the stored
  row. All other records are dropped.
- **Comeback mask** (`Fixtures.OvercomeGames`): one side led at half time and the other side
  won.

Files: `wrappers.dfy` (Option/Result), `sequences.dfy` (order-preserving filter and the
subsequence relation), `text.dfy` (substring test, split, strip, integer literals),
`fixtures.dfy`, `season_stats.dfy`, `rounds.dfy`, `refresh.dfy`, `bulk_update.dfy`.

Modelling choices:
- Dates are integer day numbers. "Today" is a parameter.
- Goal columns are `Option<int>` because they are NULL until a match is played. A
  comparison with NULL is false, as in SQL and in pandas. So a finished row with a NULL
  score is labelled a loss, and a NULL adds nothing to a goal sum.
- The round label is `Option<string>`. In numeric mode a NULL label is an error, because
  pandas refuses a mask that contains NaN.
- The summary table is a map keyed by (side, name).
- The code groups by (`team_group`, `team_name`). A team that played at home and away under
  one name therefore gets two groups of one game each, not one group of two
  (`SeasonStats.HomeAndAwayAreSeparateGroups`).
- The code sums the raw goal columns in every group. The model keeps those sums and adds a
  corrected variant that sums the team's own goals (see Findings).

## Model

| member | source | states |
|---|---|---|
| `Fixtures.SeasonResults` | models/fixtures.py:163-172 | The selected rows form a subsequence of the store. Each has status "FT", the queried season, and the team as home or away. Every store row that meets these conditions is selected, with as many copies as the store holds. No other row appears. |
| `Fixtures.OvercomeGames` | models/fixtures.py:285-297 | A fixture is kept exactly when both half-time and full-time scores are known, one side leads at half time, and the other side wins at full time. The result is a subsequence of the store. A level score at either time is never kept. Each kept fixture appears as often as it does in the store. |
| `SeasonStats.Tag` | models/fixtures.py:180-190 | The group is home exactly when the home team id is the team. The name is the name of that same side. For a fixture the team played in, the id on the tagged side is the team's. |
| `SeasonStats.Label` | models/fixtures.py:193-208 | Labelling is total: every row is W, D or L. Seen from the team: W when it scored more, D on a level score, L otherwise (a NULL score included). A level score is D whichever side the team played. |
| `SeasonStats.SortByDate` | models/fixtures.py:191 | The rows come out in ascending date order. The output is a permutation of the input. |
| `SeasonStats.SortKeepsCount` | models/fixtures.py:191 | Sorting does not change how many rows any mask selects. |
| `SeasonStats.Summarize` | models/fixtures.py:211-220 | `games` is the number of rows. The form has one letter per row, in row order, each the label of its row. `wins`, `draws` and `loses` add up to `games`. |
| `SeasonStats.CountsMatchForm` | models/fixtures.py:213-215 | `wins`, `draws` and `loses` are the numbers of W, D and L letters in the form string. |
| `SeasonStats.Aggregate` | models/fixtures.py:209-223 | There is one summary per distinct (side, name) key of the table. Each has as many games as its group has rows, and at least one. |
| `SeasonStats.SeasonStatsByTeam` | models/fixtures.py:159-225 | Every reported group has at least one game. Its form is one letter per game, and its win, draw and loss counts add up to its games. |
| `SeasonStats.GamesCountFixtures` | models/fixtures.py:209-212 | A group is reported exactly when some selected fixture falls into it. Its game count is the number of the team's finished season fixtures tagged with that key. |
| `SeasonStats.FormIsChronological` | models/fixtures.py:191-220 | The form letters are the labels of the group's rows, and those rows are in ascending date order. So the form reads oldest first. |
| `SeasonStats.HomeGroupSumsAgree` | models/fixtures.py:216-217 | For a home group, the raw column sums equal the team's own scored and conceded totals. The whole summary agrees with the corrected one. |
| `SeasonStats.AwayGroupSumsSwapped` | models/fixtures.py:216-217 | For an away group, the raw column sums are swapped: reported goals scored are the team's goals conceded, and the reverse. |
| `SeasonStats.AwayWinCountedAsConceded` | models/fixtures.py:216-217 | Team 7 wins 2-0 away. As written, it is reported with 0 scored and 2 conceded. The corrected sums report 2 and 0. |
| `SeasonStats.TeamSeasonStats` | models/fixtures.py:209-223 | Corrected table: a group is reported exactly when some selected store fixture falls into it. For every group key, the game count is the number of store fixtures in that season group. Goals scored sum the team's own goals, picked by team id, over those fixtures. Goals conceded sum the opponents' goals. NULL goals count as 0. |
| `SeasonStats.TeamGoalsFromStore` | models/fixtures.py:209-223 | In the team-perspective aggregation, a group's scored and conceded totals equal the team's own and the opponents' goals, by team id, over the store fixtures of that season group. |
| `SeasonStats.HomeAndAwayAreSeparateGroups` | models/fixtures.py:209-223 | A home win and an away draw under one name form two groups. Each has one game: form "W" for home, "D" for away. |
| `Rounds.FilterByRounds` | models/fixtures.py:144-157 | "all_finished" keeps exactly the finished rows, as a subsequence, with every copy of each. "last_5" and any other name give no result. A number gives the numeric mode's rows, or fails with the same error value as the numeric mode. |
| `Rounds.FilterUpTo` | models/fixtures.py:151-157 | Fails exactly when a round label is NULL or a regular-season label has no readable number. The reported label is such a label. Otherwise it keeps exactly the regular-season rows whose number is at most N, as a subsequence of the input, with every copy of each. |
| `Rounds.CheckRounds` | models/fixtures.py:151-156 | Reports a missing round exactly when some round label is NULL. An unparsable-round report names a regular-season label without a readable number. It reports nothing exactly when every label is present and every regular-season label has a number. |
| `Rounds.RoundNumber` | models/fixtures.py:155 | A label yields a number only if it contains '-', and only a number in the `int64` range. |
| `Rounds.RoundNumberOfLabel` | models/fixtures.py:153-155 | "Regular Season - n" counts as a regular-season label. It yields round number n when n fits in an `int64`, and no number when it does not, because the conversion overflows. |
| `Text.Split` | models/fixtures.py:155 | Splitting gives at least one part. No part contains the separator. Joining the parts with the separator gives back the input. |
| `Text.Strip` | models/fixtures.py:155 | The result neither starts nor ends with whitespace. |
| `Text.StripSurrounded` | models/fixtures.py:155 | Stripping a body that has whitespace only around it gives exactly the body. |
| `Text.ParseInt` | models/fixtures.py:155 | A number is read exactly when the text is an optional sign followed by decimal digits. Digits read as their decimal value. A `+` sign keeps that value and a `-` sign negates it. |
| `Text.ParseShowNat` | models/fixtures.py:155 | The decimal spelling of n reads back as n. |
| `Refresh.EarliestPending` | models/fixtures.py:242-247 | Gives no date exactly when the season has no not-started fixture. Otherwise the date belongs to such a fixture and is not later than any of them. |
| `Refresh.DateRange` | models/fixtures.py:248-252 | There are last - first + 1 days, or none when first is after last. Entry i is first + i. The list starts at first, ends at last, and each day is the previous one plus one. |
| `Refresh.DatesToUpdate` | models/fixtures.py:238-255 | Fails exactly when the current season has no not-started fixture. Otherwise it lists every day from the earliest such fixture's date through today. |
| `BulkUpdate.StoredIds` | models/fixtures.py:264-270 | Gives exactly the batch ids that are already stored. |
| `BulkUpdate.RecordsToUpdate` | models/fixtures.py:271-273 | The records to write form a subsequence of the batch. They are exactly the records whose id is stored, with every copy of each kept. |
| `BulkUpdate.WriteAll` | models/fixtures.py:274 | No id is added. Each stored id holds the last record written for it, or its old row. |
| `BulkUpdate.Update` | models/fixtures.py:257-275 | The set of stored ids is unchanged, so nothing is inserted. A row that no record names stays as it was. A row that records name holds the last of them, taken as a whole record. Rows stay keyed by their id. |

## Left out

- SQLAlchemy schema, relationships and `__repr__`, and all of `models/countries.py`. These are declarations with no logic.
- Sessions, `pd.read_sql_query`, commit, rollback and `bulk_update_mappings` are I/O. The store is a sequence of fixtures, or a map by id for the update. A failing batch (rollback, nothing written) is not modelled.
- `avg_goals_scored` / `avg_goals_conceded` (floating-point mean rounded to two decimals) are left out.
- `strftime` formatting, `datetime.now()` and `date.today()`. Dates are day numbers and today is a parameter. NULL dates are not modelled.
- The CSV export of `create_game_preview` is file I/O.
- `get_results_max_date`, `get_today_fixtures`, `get_all_fixtures_by_team`, `get_season_fixtures_by_team` and `get_season_results_by_team` are left out. They are query wrappers, and the last one uses the same selection as `Fixtures.SeasonResults`.
- Columns no computation reads (league id, season id, country name, league name, referee) are left out.
- Row order of the summary table: pandas orders groups by key. The model returns a map keyed by (side, name).
- Order of same-date rows: the default pandas sort is not stable. The model keeps input order for equal dates.
- An empty selection: the model gives an empty table. The row-wise `apply` on an empty frame depends on the pandas version and is not modelled.
- Text.ParseInt: Python's `int` also accepts underscores between digits and non-ASCII digits. Not modelled.
- Text.Strip: the model strips exactly the ASCII characters Python's `str.isspace` accepts: tab, line feed, vertical tab, form feed, carriage return, the separators U+001C to U+001F, and space. Non-ASCII whitespace (U+0085, U+00A0, U+2000 and the rest) is not modelled. The contract states only that the result has no whitespace at either end. `Text.StripSurrounded` pins down the result for a body with whitespace only around it.
- Rounds.RoundNumber: its contract only says a number needs a '-' and lies in the `int64` range. The exact reading is stated for labels of the form "Regular Season - n" by `Rounds.RoundNumberOfLabel`.
- Rounds.CheckRounds: `.astype(int)` raises `OverflowError` for a round number outside the `int64` range, and `ValueError` for text that is not a number. The model reports both as `UnparsableRound` with the offending label.
- Rounds.FilterUpTo: `rounds` is an unbounded integer. Comparing the `int64` column with a Python `int` outside that range is not modelled.
- BulkUpdate.Update: each batch record is taken to carry every modelled column, so a written row is replaced by the record as a whole. `bulk_update_mappings` sets only the columns present in a mapping. Records built from a frame with fewer columns, whose other columns keep their stored values, are not modelled.
- BulkUpdate.WriteAll: same whole-record assumption as `BulkUpdate.Update`.
- The round filter matches "Regular Season" as a literal substring. The code's pattern is a regular expression without metacharacters, so the two agree. A boolean passed as the round count is not modelled.

## Findings

| source | as written | input that shows it | evidently intended | confidence | as-written member | corrected member |
|---|---|---|---|---|---|---|
| models/fixtures.py:216-217 | `goals_scored` sums `goals_home` and `goals_conceded` sums `goals_away` in every group | team 7 wins 2-0 away: its away group reports 0 scored and 2 conceded | sum the team's own goals as scored and the opponent's as conceded, whichever side it played | high (not executed) | `SeasonStats.AwayWinCountedAsConceded` | `SeasonStats.TeamSeasonStats` |
