/**
 * Season statistics of one team: its finished fixtures of a season are seen from the team's
 * side, sorted by date, labelled win/draw/loss and grouped by (side, team name) into games,
 * win/draw/loss counts, goal totals and a chronological form string.
 */
module SeasonStats {
  import opened Wrappers
  import opened Sequences
  import opened Fixtures

  /** The grouping key of the summary table: the side played and the name played under. */
  datatype GroupKey = GroupKey(group: Side, name: string)

  /** A fixture seen from the queried team. */
  datatype TeamRow = TeamRow(fixture: Fixture, group: Side, name: string) {
    function Key(): GroupKey {
      GroupKey(group, name)
    }

    /** Goals of the side the row is tagged with. */
    function Scored(): Option<int> {
      fixture.Goals(group)
    }

    /** Goals of the opposite side. */
    function Conceded(): Option<int> {
      fixture.Goals(group.Other())
    }
  }

  datatype Outcome = Win | Draw | Loss

  /** The letter an outcome contributes to the form string. */
  function Letter(o: Outcome): char {
    match o
    case Win => 'W'
    case Draw => 'D'
    case Loss => 'L'
  }

  /**
   * Tags a fixture with the side the team played on: home exactly when the home id is the
   * team, otherwise away, and the name of that same side.
   */
  function Tag(f: Fixture, team: int): (r: TeamRow)
    ensures r.fixture == f
    ensures r.group == Home <==> f.homeTeamId == team
    ensures r.name == f.TeamName(r.group)
    ensures (f.homeTeamId == team || f.awayTeamId == team) ==> f.TeamId(r.group) == team
  {
    var group := if f.homeTeamId == team then Home else Away;
    TeamRow(f, group, if group == Home then f.homeTeamName else f.awayTeamName)
  }

  function TagAll(fs: seq<Fixture>, team: int): (rows: seq<TeamRow>)
    ensures |rows| == |fs|
    ensures forall i :: 0 <= i < |fs| ==> rows[i] == Tag(fs[i], team)
    decreases |fs|
  {
    if |fs| == 0 then [] else [Tag(fs[0], team)] + TagAll(fs[1..], team)
  }

  /**
   * The form letter of a row. The code tests the win condition per side and then equality of
   * the raw columns; read from the team's side this is: a win when it scored more, a draw on
   * a level score (whichever side it played), a loss otherwise, which includes a NULL score.
   */
  function Label(r: TeamRow): (o: Outcome)
    ensures o == Win <==> Gt(r.Scored(), r.Conceded())
    ensures o == Draw <==> Eq(r.Scored(), r.Conceded())
    ensures o == Loss <==> !Gt(r.Scored(), r.Conceded()) && !Eq(r.Scored(), r.Conceded())
    ensures Eq(r.fixture.goalsHome, r.fixture.goalsAway) ==> o == Draw
  {
    var f := r.fixture;
    if (r.group == Home && Gt(f.goalsHome, f.goalsAway)) || (r.group == Away && Gt(f.goalsAway, f.goalsHome)) then Win
    else if Eq(f.goalsHome, f.goalsAway) then Draw
    else Loss
  }

  predicate SortedByDate(rows: seq<TeamRow>) {
    forall i, j :: 0 <= i < j < |rows| ==> rows[i].fixture.date <= rows[j].fixture.date
  }

  /** Inserts `x` before the first row with a later-or-equal date. */
  function Insert(x: TeamRow, rows: seq<TeamRow>): (r: seq<TeamRow>)
    requires SortedByDate(rows)
    ensures SortedByDate(r)
    ensures multiset(r) == multiset(rows) + multiset{x}
    ensures |r| == |rows| + 1 && (r[0] == x || (|rows| > 0 && r[0] == rows[0]))
    decreases |rows|
  {
    if |rows| == 0 || x.fixture.date <= rows[0].fixture.date then [x] + rows
    else
      var tail := Insert(x, rows[1..]);
      assert rows == [rows[0]] + rows[1..];
      [rows[0]] + tail
  }

  /** The rows ordered by date, oldest first. */
  function SortByDate(rows: seq<TeamRow>): (r: seq<TeamRow>)
    ensures SortedByDate(r)
    ensures multiset(r) == multiset(rows)
    decreases |rows|
  {
    if |rows| == 0 then []
    else
      assert rows == [rows[0]] + rows[1..];
      Insert(rows[0], SortByDate(rows[1..]))
  }

  lemma {:induction false} InsertKeepsCount(p: TeamRow -> bool, x: TeamRow, rows: seq<TeamRow>)
    requires SortedByDate(rows)
    ensures |Filter(p, Insert(x, rows))| == |Filter(p, rows)| + (if p(x) then 1 else 0)
    decreases |rows|
  {
    if |rows| == 0 || x.fixture.date <= rows[0].fixture.date {
      var r := [x] + rows;
      assert Insert(x, rows) == r;
      assert r[1..] == rows;
    } else {
      var rest := rows[1..];
      assert SortedByDate(rest);
      var tail := Insert(x, rest);
      var r := [rows[0]] + tail;
      assert Insert(x, rows) == r;
      assert r[1..] == tail;
      InsertKeepsCount(p, x, rest);
    }
  }

  /** Sorting does not change how many rows a mask selects. */
  lemma {:induction false} SortKeepsCount(p: TeamRow -> bool, rows: seq<TeamRow>)
    ensures |Filter(p, SortByDate(rows))| == |Filter(p, rows)|
    decreases |rows|
  {
    if |rows| > 0 {
      SortKeepsCount(p, rows[1..]);
      InsertKeepsCount(p, rows[0], SortByDate(rows[1..]));
    }
  }

  /** Selecting rows that are all dated `d` or later gives rows dated `d` or later. */
  lemma FilterDatedFrom(p: TeamRow -> bool, rows: seq<TeamRow>, d: int)
    requires forall i :: 0 <= i < |rows| ==> d <= rows[i].fixture.date
    ensures forall i :: 0 <= i < |Filter(p, rows)| ==> d <= Filter(p, rows)[i].fixture.date
  {
    var r := Filter(p, rows);
    forall i | 0 <= i < |r|
      ensures d <= r[i].fixture.date
    {
      assert r[i] in rows;
    }
  }

  /** A row dated no later than every row of a sorted table can go in front of it. */
  lemma ConsSorted(x: TeamRow, rows: seq<TeamRow>)
    requires SortedByDate(rows)
    requires forall i :: 0 <= i < |rows| ==> x.fixture.date <= rows[i].fixture.date
    ensures SortedByDate([x] + rows)
  {
    var r := [x] + rows;
    forall i, j | 0 <= i < j < |r|
      ensures r[i].fixture.date <= r[j].fixture.date
    {
      assert r[j] == rows[j - 1];
      if i > 0 {
        assert r[i] == rows[i - 1];
      }
    }
  }

  /** Selecting rows from a date-sorted table leaves them date-sorted. */
  lemma {:induction false} FilterKeepsSorted(p: TeamRow -> bool, rows: seq<TeamRow>)
    requires SortedByDate(rows)
    ensures SortedByDate(Filter(p, rows))
    decreases |rows|
  {
    if |rows| > 0 {
      var rest := rows[1..];
      assert SortedByDate(rest);
      FilterKeepsSorted(p, rest);
      if p(rows[0]) {
        assert forall i :: 0 <= i < |rest| ==> rows[0].fixture.date <= rest[i].fixture.date;
        FilterDatedFrom(p, rest, rows[0].fixture.date);
        ConsSorted(rows[0], Filter(p, rest));
      }
    }
  }

  /** Which goal columns the aggregation sums into goals scored and goals conceded. */
  datatype GoalSums =
    | HomeAwayColumns   // goals_home and goals_away, whatever side the team played
    | TeamPerspective   // the team's own goals and its opponent's

  /** One row of the season summary table. */
  datatype Summary = Summary(
    games: nat,
    wins: nat,
    draws: nat,
    loses: nat,
    goalsScored: int,
    goalsConceded: int,
    form: string)

  /** A goal count as the column sum takes it: NULL adds nothing. */
  function Nz(g: Option<int>): int {
    g.GetOr(0)
  }

  /** Sum of one fixed side's full-time goals over the rows. */
  function SideTotal(rows: seq<TeamRow>, side: Side): int
    decreases |rows|
  {
    if |rows| == 0 then 0 else SideTotal(rows[..|rows| - 1], side) + Nz(rows[|rows| - 1].fixture.Goals(side))
  }

  /** Sum of the goals the team itself scored over the rows. */
  function ScoredTotal(rows: seq<TeamRow>): int
    decreases |rows|
  {
    if |rows| == 0 then 0 else ScoredTotal(rows[..|rows| - 1]) + Nz(rows[|rows| - 1].Scored())
  }

  /** Sum of the goals the team conceded over the rows. */
  function ConcededTotal(rows: seq<TeamRow>): int
    decreases |rows|
  {
    if |rows| == 0 then 0 else ConcededTotal(rows[..|rows| - 1]) + Nz(rows[|rows| - 1].Conceded())
  }

  /** The form string: the rows' letters joined in table order. */
  function Form(rows: seq<TeamRow>): (form: string)
    ensures |form| == |rows|
    ensures forall i :: 0 <= i < |rows| ==> form[i] == Letter(Label(rows[i]))
    decreases |rows|
  {
    if |rows| == 0 then "" else Form(rows[..|rows| - 1]) + [Letter(Label(rows[|rows| - 1]))]
  }

  /** The number of rows labelled `o`: the `(form == letter).sum()` aggregation. */
  function OutcomeCount(rows: seq<TeamRow>, o: Outcome): nat
    decreases |rows|
  {
    if |rows| == 0 then 0
    else OutcomeCount(rows[..|rows| - 1], o) + (if Label(rows[|rows| - 1]) == o then 1 else 0)
  }

  /** The count of an outcome is the number of its letters in the form string. */
  lemma {:induction false} OutcomeCountIsLetterCount(rows: seq<TeamRow>, o: Outcome)
    ensures OutcomeCount(rows, o) == multiset(Form(rows))[Letter(o)]
    decreases |rows|
  {
    if |rows| > 0 {
      OutcomeCountIsLetterCount(rows[..|rows| - 1], o);
    }
  }

  /** Every row is counted under exactly one outcome. */
  lemma {:induction false} OutcomesPartitionRows(rows: seq<TeamRow>)
    ensures OutcomeCount(rows, Win) + OutcomeCount(rows, Draw) + OutcomeCount(rows, Loss) == |rows|
    decreases |rows|
  {
    if |rows| > 0 {
      OutcomesPartitionRows(rows[..|rows| - 1]);
    }
  }

  /**
   * The summary of one group's rows, taken in table order: one form letter per row, the
   * outcome counts, and the goal sums chosen by `sums`.
   */
  function Summarize(rows: seq<TeamRow>, sums: GoalSums): (s: Summary)
    ensures s.games == |rows| == |s.form|
    ensures forall i :: 0 <= i < |rows| ==> s.form[i] == Letter(Label(rows[i]))
    ensures s.wins + s.draws + s.loses == s.games
  {
    OutcomesPartitionRows(rows);
    Summary(
      |rows|,
      OutcomeCount(rows, Win),
      OutcomeCount(rows, Draw),
      OutcomeCount(rows, Loss),
      if sums == HomeAwayColumns then SideTotal(rows, Home) else ScoredTotal(rows),
      if sums == HomeAwayColumns then SideTotal(rows, Away) else ConcededTotal(rows),
      Form(rows))
  }

  /** The win, draw and loss counts of a summary are the numbers of W, D and L letters in its form. */
  lemma CountsMatchForm(rows: seq<TeamRow>, sums: GoalSums)
    ensures var s := Summarize(rows, sums);
            && s.wins == multiset(s.form)['W']
            && s.draws == multiset(s.form)['D']
            && s.loses == multiset(s.form)['L']
  {
    OutcomeCountIsLetterCount(rows, Win);
    OutcomeCountIsLetterCount(rows, Draw);
    OutcomeCountIsLetterCount(rows, Loss);
  }

  /** The mask selecting the rows of one group. */
  function InGroup(k: GroupKey): TeamRow -> bool {
    (r: TeamRow) => r.Key() == k
  }

  /** The rows of one group, in table order. */
  function GroupRows(rows: seq<TeamRow>, k: GroupKey): seq<TeamRow> {
    Filter(InGroup(k), rows)
  }

  /** The distinct group keys present in the table. */
  function Keys(rows: seq<TeamRow>): set<GroupKey> {
    set r | r in rows :: r.Key()
  }

  /** A key is present exactly when its group has rows. */
  lemma KeyPresentIffRows(rows: seq<TeamRow>, k: GroupKey)
    ensures k in Keys(rows) <==> |GroupRows(rows, k)| > 0
  {
    if k in Keys(rows) {
      var r :| r in rows && r.Key() == k;
      var i :| 0 <= i < |rows| && rows[i] == r;
      assert r in GroupRows(rows, k);
    }
    if |GroupRows(rows, k)| > 0 {
      assert GroupRows(rows, k)[0] in rows;
    }
  }

  /** Group-by-and-aggregate: one summary per distinct key of the table. */
  function Aggregate(rows: seq<TeamRow>, sums: GoalSums): (stats: map<GroupKey, Summary>)
    ensures stats.Keys == Keys(rows)
    ensures forall k :: k in stats ==> stats[k].games == |GroupRows(rows, k)| > 0
  {
    var keys := Keys(rows);
    assert forall k :: k in keys ==> |GroupRows(rows, k)| > 0 by {
      forall k | k in keys
        ensures |GroupRows(rows, k)| > 0
      {
        KeyPresentIffRows(rows, k);
      }
    }
    map k | k in keys :: Summarize(GroupRows(rows, k), sums)
  }

  /** The team's finished fixtures of the season, tagged with its side and sorted by date. */
  function ResultTable(store: seq<Fixture>, team: int, season: string): (rows: seq<TeamRow>)
    ensures SortedByDate(rows)
    ensures multiset(rows) == multiset(TagAll(SeasonResults(store, team, season), team))
  {
    SortByDate(TagAll(SeasonResults(store, team, season), team))
  }

  /** The season summary table of `team`, summing goals as `sums` says. */
  function SeasonStatsByTeam(store: seq<Fixture>, team: int, season: string, sums: GoalSums)
    : (stats: map<GroupKey, Summary>)
    ensures forall k :: k in stats ==>
              && stats[k].games > 0
              && |stats[k].form| == stats[k].games
              && stats[k].wins + stats[k].draws + stats[k].loses == stats[k].games
  {
    Aggregate(ResultTable(store, team, season), sums)
  }

  /**
   * The season table with goals summed from the team's side: one group for every key some
   * selected fixture falls into, and in every group, goals scored are the goals the team scored
   * and goals conceded the goals it let in, home or away.
   */
  function TeamSeasonStats(store: seq<Fixture>, team: int, season: string): (stats: map<GroupKey, Summary>)
    ensures forall k :: k in stats <==> |Filter(InSeasonGroup(team, season, k), store)| > 0
    ensures forall k :: k in stats ==>
              var fs := Filter(InSeasonGroup(team, season, k), store);
              && stats[k].games == |fs|
              && stats[k].goalsScored == GoalsFor(fs, team)
              && stats[k].goalsConceded == GoalsAgainst(fs, team)
  {
    var stats := SeasonStatsByTeam(store, team, season, TeamPerspective);
    forall k
      ensures k in stats <==> |Filter(InSeasonGroup(team, season, k), store)| > 0
    {
      GamesCountFixtures(store, team, season, TeamPerspective, k);
    }
    assert forall k :: k in stats ==>
             var fs := Filter(InSeasonGroup(team, season, k), store);
             && stats[k].games == |fs|
             && stats[k].goalsScored == GoalsFor(fs, team)
             && stats[k].goalsConceded == GoalsAgainst(fs, team)
    by {
      forall k | k in stats
        ensures var fs := Filter(InSeasonGroup(team, season, k), store);
                && stats[k].games == |fs|
                && stats[k].goalsScored == GoalsFor(fs, team)
                && stats[k].goalsConceded == GoalsAgainst(fs, team)
      {
        GamesCountFixtures(store, team, season, TeamPerspective, k);
        TeamGoalsFromStore(store, team, season, k);
      }
    }
    stats
  }

  /** The goals `team` scored in `f`: the home column when it is the home team, else the away one. */
  function OwnGoals(f: Fixture, team: int): Option<int> {
    if f.homeTeamId == team then f.goalsHome else f.goalsAway
  }

  /** The goals `team` let in during `f`: the column of the other side. */
  function OpponentGoals(f: Fixture, team: int): Option<int> {
    if f.homeTeamId == team then f.goalsAway else f.goalsHome
  }

  /** The goals `team` scored over the fixtures, a NULL score counting as none. */
  function GoalsFor(fs: seq<Fixture>, team: int): int
    decreases |fs|
  {
    if |fs| == 0 then 0 else Nz(OwnGoals(fs[0], team)) + GoalsFor(fs[1..], team)
  }

  /** The goals `team` let in over the fixtures, a NULL score counting as none. */
  function GoalsAgainst(fs: seq<Fixture>, team: int): int
    decreases |fs|
  {
    if |fs| == 0 then 0 else Nz(OpponentGoals(fs[0], team)) + GoalsAgainst(fs[1..], team)
  }

  /** A per-row quantity summed over a table, first row first. */
  function Total(w: TeamRow -> int, rows: seq<TeamRow>): int
    decreases |rows|
  {
    if |rows| == 0 then 0 else w(rows[0]) + Total(w, rows[1..])
  }

  function ScoredWeight(): TeamRow -> int {
    (r: TeamRow) => Nz(r.Scored())
  }

  function ConcededWeight(): TeamRow -> int {
    (r: TeamRow) => Nz(r.Conceded())
  }

  lemma TotalCons(w: TeamRow -> int, x: TeamRow, rows: seq<TeamRow>)
    ensures Total(w, [x] + rows) == w(x) + Total(w, rows)
  {
    assert ([x] + rows)[1..] == rows;
  }

  /** Adding a row at the end adds its quantity. */
  lemma {:induction false} TotalSnoc(w: TeamRow -> int, rows: seq<TeamRow>, x: TeamRow)
    ensures Total(w, rows + [x]) == Total(w, rows) + w(x)
    decreases |rows|
  {
    if |rows| == 0 {
      assert rows + [x] == [x] + [];
      TotalCons(w, x, []);
    } else {
      assert rows + [x] == [rows[0]] + (rows[1..] + [x]);
      TotalCons(w, rows[0], rows[1..] + [x]);
      TotalSnoc(w, rows[1..], x);
    }
  }

  /** The team's scored and conceded totals are the sums of its per-row goals. */
  lemma {:induction false} TeamTotals(rows: seq<TeamRow>)
    ensures ScoredTotal(rows) == Total(ScoredWeight(), rows)
    ensures ConcededTotal(rows) == Total(ConcededWeight(), rows)
    decreases |rows|
  {
    if |rows| > 0 {
      var init := rows[..|rows| - 1];
      var last := rows[|rows| - 1];
      assert init + [last] == rows;
      TeamTotals(init);
      TotalSnoc(ScoredWeight(), init, last);
      TotalSnoc(ConcededWeight(), init, last);
    }
  }

  lemma {:induction false} InsertKeepsTotal(p: TeamRow -> bool, w: TeamRow -> int, x: TeamRow, rows: seq<TeamRow>)
    requires SortedByDate(rows)
    ensures Total(w, Filter(p, Insert(x, rows))) == Total(w, Filter(p, rows)) + (if p(x) then w(x) else 0)
    decreases |rows|
  {
    if |rows| == 0 || x.fixture.date <= rows[0].fixture.date {
      var r := [x] + rows;
      assert Insert(x, rows) == r;
      assert r[1..] == rows;
      if p(x) {
        TotalCons(w, x, Filter(p, rows));
      }
    } else {
      var rest := rows[1..];
      assert SortedByDate(rest);
      var tail := Insert(x, rest);
      var r := [rows[0]] + tail;
      assert Insert(x, rows) == r;
      assert r[1..] == tail;
      InsertKeepsTotal(p, w, x, rest);
      if p(rows[0]) {
        TotalCons(w, rows[0], Filter(p, tail));
        TotalCons(w, rows[0], Filter(p, rest));
      }
    }
  }

  /** Sorting does not change the sum of a quantity over the rows a mask selects. */
  lemma {:induction false} SortKeepsTotal(p: TeamRow -> bool, w: TeamRow -> int, rows: seq<TeamRow>)
    ensures Total(w, Filter(p, SortByDate(rows))) == Total(w, Filter(p, rows))
    decreases |rows|
  {
    if |rows| > 0 {
      var rest := rows[1..];
      SortKeepsTotal(p, w, rest);
      InsertKeepsTotal(p, w, rows[0], SortByDate(rest));
      if p(rows[0]) {
        TotalCons(w, rows[0], Filter(p, rest));
      }
    }
  }

  /**
   * Over the fixtures tagged into group `k`, the tagged rows' goals are the team's own goals
   * and its opponents' goals, read by team id.
   */
  lemma {:induction false} TagAllGroupGoals(fs: seq<Fixture>, team: int, k: GroupKey)
    ensures Total(ScoredWeight(), GroupRows(TagAll(fs, team), k)) == GoalsFor(Filter(TaggedInto(team, k), fs), team)
    ensures Total(ConcededWeight(), GroupRows(TagAll(fs, team), k)) == GoalsAgainst(Filter(TaggedInto(team, k), fs), team)
    decreases |fs|
  {
    if |fs| > 0 {
      var t := Tag(fs[0], team);
      var rest := TagAll(fs[1..], team);
      var tagged := [t] + rest;
      assert TagAll(fs, team) == tagged;
      assert tagged[1..] == rest;
      TagAllGroupGoals(fs[1..], team, k);
      if TaggedInto(team, k)(fs[0]) {
        var kept := Filter(TaggedInto(team, k), fs[1..]);
        assert ([fs[0]] + kept)[1..] == kept;
        TotalCons(ScoredWeight(), t, GroupRows(rest, k));
        TotalCons(ConcededWeight(), t, GroupRows(rest, k));
      }
    }
  }

  /**
   * In the corrected table a group's goals scored and conceded are the team's own and its
   * opponents' goals, read by team id, over the store fixtures that fall into the group.
   */
  lemma TeamGoalsFromStore(store: seq<Fixture>, team: int, season: string, k: GroupKey)
    ensures var stats := SeasonStatsByTeam(store, team, season, TeamPerspective);
            var fs := Filter(InSeasonGroup(team, season, k), store);
            k in stats ==> stats[k].goalsScored == GoalsFor(fs, team) && stats[k].goalsConceded == GoalsAgainst(fs, team)
  {
    var selected := SeasonResults(store, team, season);
    var tagged := TagAll(selected, team);
    var rows := ResultTable(store, team, season);
    assert rows == SortByDate(tagged);
    var g := GroupRows(rows, k);
    var stats := SeasonStatsByTeam(store, team, season, TeamPerspective);
    if k in stats {
      assert stats == Aggregate(rows, TeamPerspective);
      assert stats[k] == Summarize(g, TeamPerspective);
      TeamTotals(g);
      SortKeepsTotal(InGroup(k), ScoredWeight(), tagged);
      SortKeepsTotal(InGroup(k), ConcededWeight(), tagged);
      TagAllGroupGoals(selected, team, k);
      FilterOfFilter(SeasonResultMask(team, season), TaggedInto(team, k), InSeasonGroup(team, season, k), store);
    }
  }

  /** The mask of fixtures that end up in group `k`: selected, and tagged with key `k`. */
  function InSeasonGroup(team: int, season: string, k: GroupKey): Fixture -> bool {
    (f: Fixture) => IsSeasonResult(f, team, season) && Tag(f, team).Key() == k
  }

  /** The mask of fixtures whose tagged row falls into group `k`. */
  function TaggedInto(team: int, k: GroupKey): Fixture -> bool {
    (f: Fixture) => Tag(f, team).Key() == k
  }

  lemma {:induction false} TagAllGroupCount(fs: seq<Fixture>, team: int, k: GroupKey)
    ensures |GroupRows(TagAll(fs, team), k)| == |Filter(TaggedInto(team, k), fs)|
    decreases |fs|
  {
    if |fs| > 0 {
      TagAllGroupCount(fs[1..], team, k);
      assert TagAll(fs, team)[1..] == TagAll(fs[1..], team);
    }
  }

  /**
   * A group's game count is the number of the team's finished fixtures of the season that
   * fall into that group, and a group is reported exactly when there is one.
   */
  lemma GamesCountFixtures(store: seq<Fixture>, team: int, season: string, sums: GoalSums, k: GroupKey)
    ensures var n := |Filter(InSeasonGroup(team, season, k), store)|;
            var stats := SeasonStatsByTeam(store, team, season, sums);
            && (k in stats <==> n > 0)
            && (k in stats ==> stats[k].games == n)
  {
    var selected := SeasonResults(store, team, season);
    var tagged := TagAll(selected, team);
    var rows := ResultTable(store, team, season);
    assert rows == SortByDate(tagged);
    SortKeepsCount(InGroup(k), tagged);
    assert |GroupRows(rows, k)| == |GroupRows(tagged, k)|;
    TagAllGroupCount(selected, team, k);
    FilterOfFilter(SeasonResultMask(team, season), TaggedInto(team, k), InSeasonGroup(team, season, k), store);
    assert |GroupRows(rows, k)| == |Filter(InSeasonGroup(team, season, k), store)|;
    KeyPresentIffRows(rows, k);
  }

  /**
   * The form string of a group reads oldest first: its letters are the labels of the group's
   * rows, and those rows are in ascending date order.
   */
  lemma FormIsChronological(store: seq<Fixture>, team: int, season: string, sums: GoalSums, k: GroupKey)
    requires k in Keys(ResultTable(store, team, season))
    ensures k in SeasonStatsByTeam(store, team, season, sums)
    ensures var g := GroupRows(ResultTable(store, team, season), k);
            var s := SeasonStatsByTeam(store, team, season, sums)[k];
            && SortedByDate(g)
            && |s.form| == |g|
            && forall i :: 0 <= i < |g| ==> g[i].Key() == k && s.form[i] == Letter(Label(g[i]))
  {
    var rows := ResultTable(store, team, season);
    assert SeasonStatsByTeam(store, team, season, sums) == Aggregate(rows, sums);
    GroupFormInOrder(rows, sums, k);
  }

  /** In a date-sorted table, each group's form lists its own rows' letters in date order. */
  lemma GroupFormInOrder(rows: seq<TeamRow>, sums: GoalSums, k: GroupKey)
    requires SortedByDate(rows) && k in Keys(rows)
    ensures k in Aggregate(rows, sums)
    ensures var g := GroupRows(rows, k);
            var s := Aggregate(rows, sums)[k];
            && SortedByDate(g)
            && |s.form| == |g|
            && forall i :: 0 <= i < |g| ==> g[i].Key() == k && s.form[i] == Letter(Label(g[i]))
  {
    var g := GroupRows(rows, k);
    assert Aggregate(rows, sums)[k] == Summarize(g, sums);
    FilterKeepsSorted(InGroup(k), rows);
    assert forall i :: 0 <= i < |g| ==> InGroup(k)(g[i]);
  }

  /** Over rows all tagged with `side`, that side's goals are the team's own. */
  lemma {:induction false} OneSideTotals(rows: seq<TeamRow>, side: Side)
    requires forall i :: 0 <= i < |rows| ==> rows[i].group == side
    ensures SideTotal(rows, side) == ScoredTotal(rows)
    ensures SideTotal(rows, side.Other()) == ConcededTotal(rows)
    decreases |rows|
  {
    if |rows| > 0 {
      OneSideTotals(rows[..|rows| - 1], side);
    }
  }

  /** Rows of one group all carry the group's side. */
  lemma GroupRowsOnSide(rows: seq<TeamRow>, k: GroupKey)
    ensures forall i :: 0 <= i < |GroupRows(rows, k)| ==> GroupRows(rows, k)[i].group == k.group
  {
    var g := GroupRows(rows, k);
    forall i | 0 <= i < |g|
      ensures g[i].group == k.group
    {
      assert InGroup(k)(g[i]);
    }
  }

  /** On home rows, summing the goal columns gives the same summary as summing the team's goals. */
  lemma HomeRowsSumsAgree(rows: seq<TeamRow>)
    requires forall i :: 0 <= i < |rows| ==> rows[i].group == Home
    ensures Summarize(rows, HomeAwayColumns) == Summarize(rows, TeamPerspective)
  {
    OneSideTotals(rows, Home);
    assert Summarize(rows, HomeAwayColumns).form == Summarize(rows, TeamPerspective).form;
  }

  /** For a home group the summed goal columns are the team's own scored and conceded totals. */
  lemma HomeGroupSumsAgree(store: seq<Fixture>, team: int, season: string, k: GroupKey)
    requires k.group == Home
    requires k in Keys(ResultTable(store, team, season))
    ensures k in SeasonStatsByTeam(store, team, season, HomeAwayColumns)
    ensures k in SeasonStatsByTeam(store, team, season, TeamPerspective)
    ensures SeasonStatsByTeam(store, team, season, HomeAwayColumns)[k]
            == SeasonStatsByTeam(store, team, season, TeamPerspective)[k]
  {
    var rows := ResultTable(store, team, season);
    GroupRowsOnSide(rows, k);
    HomeRowsSumsAgree(GroupRows(rows, k));
    assert Aggregate(rows, HomeAwayColumns)[k] == Summarize(GroupRows(rows, k), HomeAwayColumns);
    assert Aggregate(rows, TeamPerspective)[k] == Summarize(GroupRows(rows, k), TeamPerspective);
  }

  /**
   * For an away group the summed goal columns are swapped: the reported goals scored are the
   * goals the team conceded and the reported goals conceded are the goals it scored.
   */
  lemma AwayGroupSumsSwapped(store: seq<Fixture>, team: int, season: string, k: GroupKey)
    requires k.group == Away
    requires k in Keys(ResultTable(store, team, season))
    ensures k in SeasonStatsByTeam(store, team, season, HomeAwayColumns)
    ensures k in SeasonStatsByTeam(store, team, season, TeamPerspective)
    ensures var asWritten := SeasonStatsByTeam(store, team, season, HomeAwayColumns)[k];
            var own := SeasonStatsByTeam(store, team, season, TeamPerspective)[k];
            asWritten.goalsScored == own.goalsConceded && asWritten.goalsConceded == own.goalsScored
  {
    var rows := ResultTable(store, team, season);
    var g := GroupRows(rows, k);
    GroupRowsOnSide(rows, k);
    OneSideTotals(g, Away);
    assert Aggregate(rows, HomeAwayColumns)[k] == Summarize(g, HomeAwayColumns);
    assert Aggregate(rows, TeamPerspective)[k] == Summarize(g, TeamPerspective);
  }

  lemma SingleRowSummary(r: TeamRow, sums: GoalSums)
    ensures var o := Label(r);
            var side := if sums == HomeAwayColumns then Home else r.group;
            Summarize([r], sums) == Summary(1, if o == Win then 1 else 0, if o == Draw then 1 else 0,
                                            if o == Loss then 1 else 0, Nz(r.fixture.Goals(side)),
                                            Nz(r.fixture.Goals(side.Other())), [Letter(o)])
  {
    var rows := [r];
    assert rows[..0] == [];
    assert Form(rows) == [Letter(Label(r))];
    assert SideTotal(rows, Home) == Nz(r.fixture.Goals(Home));
    assert SideTotal(rows, Away) == Nz(r.fixture.Goals(Away));
    assert ScoredTotal(rows) == Nz(r.Scored());
    assert ConcededTotal(rows) == Nz(r.Conceded());
  }

  /** Team 10 at home as "TeamA", winning 2-1 on day 738886. */
  const HomeWin: Fixture := Fixture(1, "2023", Some("Regular Season - 1"), 738886, Finished,
                                    10, "TeamA", 20, "TeamB", Some(2), Some(1), Some(1), Some(1))
  /** Team 10 away as "TeamA", drawing 0-0 a week later. */
  const AwayDraw: Fixture := Fixture(2, "2023", Some("Regular Season - 2"), 738893, Finished,
                                     30, "TeamC", 10, "TeamA", Some(0), Some(0), Some(0), Some(0))

  lemma ExampleResultTable()
    ensures ResultTable([HomeWin, AwayDraw], 10, "2023")
            == [TeamRow(HomeWin, Home, "TeamA"), TeamRow(AwayDraw, Away, "TeamA")]
  {
    var r1 := TeamRow(HomeWin, Home, "TeamA");
    var r2 := TeamRow(AwayDraw, Away, "TeamA");
    assert SeasonResults([HomeWin, AwayDraw], 10, "2023") == [HomeWin, AwayDraw];
    assert TagAll([HomeWin, AwayDraw], 10) == [r1, r2];
    assert [r1, r2][1..] == [r2];
    assert SortByDate([r2]) == [r2];
  }

  lemma ExampleGroups()
    ensures var rows := [TeamRow(HomeWin, Home, "TeamA"), TeamRow(AwayDraw, Away, "TeamA")];
            && Keys(rows) == {GroupKey(Home, "TeamA"), GroupKey(Away, "TeamA")}
            && GroupRows(rows, GroupKey(Home, "TeamA")) == [rows[0]]
            && GroupRows(rows, GroupKey(Away, "TeamA")) == [rows[1]]
  {
    var rows := [TeamRow(HomeWin, Home, "TeamA"), TeamRow(AwayDraw, Away, "TeamA")];
    assert rows[0] in rows && rows[1] in rows;
    assert rows[1..] == [rows[1]];
  }

  /**
   * A home win and an away draw under the same name fall into two groups, one per side,
   * each with one game: form "W" at home, "D" away.
   */
  lemma HomeAndAwayAreSeparateGroups()
    ensures var stats := SeasonStatsByTeam([HomeWin, AwayDraw], 10, "2023", HomeAwayColumns);
            && stats.Keys == {GroupKey(Home, "TeamA"), GroupKey(Away, "TeamA")}
            && stats[GroupKey(Home, "TeamA")] == Summary(1, 1, 0, 0, 2, 1, "W")
            && stats[GroupKey(Away, "TeamA")] == Summary(1, 0, 1, 0, 0, 0, "D")
  {
    var r1 := TeamRow(HomeWin, Home, "TeamA");
    var r2 := TeamRow(AwayDraw, Away, "TeamA");
    ExampleResultTable();
    ExampleGroups();
    SingleRowSummary(r1, HomeAwayColumns);
    SingleRowSummary(r2, HomeAwayColumns);
  }

  /** Team 7 wins 2-0 away as "Visitors". */
  const AwayWin: Fixture := Fixture(3, "2023", Some("Regular Season - 1"), 738886, Finished,
                                    3, "Hosts", 7, "Visitors", Some(0), Some(2), Some(0), Some(1))

  lemma AwayWinTable()
    ensures var rows := ResultTable([AwayWin], 7, "2023");
            && rows == [TeamRow(AwayWin, Away, "Visitors")]
            && Keys(rows) == {GroupKey(Away, "Visitors")}
            && GroupRows(rows, GroupKey(Away, "Visitors")) == rows
  {
    var row := TeamRow(AwayWin, Away, "Visitors");
    assert SeasonResults([AwayWin], 7, "2023") == [AwayWin];
    assert TagAll([AwayWin], 7) == [row];
    var rows := [row];
    assert row in rows;
  }

  /**
   * An away win reported with its goals inverted: team 7 wins 2-0 away, yet the summed goal
   * columns report 0 scored and 2 conceded. Summing the team's own goals reports 2 and 0.
   */
  lemma AwayWinCountedAsConceded()
    ensures var k := GroupKey(Away, "Visitors");
            var asWritten := SeasonStatsByTeam([AwayWin], 7, "2023", HomeAwayColumns);
            var own := TeamSeasonStats([AwayWin], 7, "2023");
            && k in asWritten && k in own
            && asWritten[k].form == "W"
            && asWritten[k].goalsScored == 0 && asWritten[k].goalsConceded == 2
            && own[k].goalsScored == 2 && own[k].goalsConceded == 0
  {
    var row := TeamRow(AwayWin, Away, "Visitors");
    AwayWinTable();
    SingleRowSummary(row, HomeAwayColumns);
    SingleRowSummary(row, TeamPerspective);
  }
}
