/**
 * The fixture record as the analytical queries read it, the selection of a team's finished
 * fixtures in one season, and the comeback ("overcome game") mask.
 */
module Fixtures {
  import opened Wrappers
  import opened Sequences

  /** Status code of a finished match. */
  const Finished: string := "FT"
  /** Status code of a match that has not started. */
  const NotStarted: string := "NS"

  /** The side of a fixture a team played on. */
  datatype Side = Home | Away {
    function Other(): Side {
      if this == Home then Away else Home
    }
  }

  /**
   * One match. Dates are day numbers. Goal columns are NULL (None) until the match has been
   * played; the round label is nullable too.
   */
  datatype Fixture = Fixture(
    fixtureId: int,
    seasonYear: string,
    round: Option<string>,
    date: int,
    status: string,
    homeTeamId: int,
    homeTeamName: string,
    awayTeamId: int,
    awayTeamName: string,
    goalsHome: Option<int>,
    goalsAway: Option<int>,
    goalsHomeHt: Option<int>,
    goalsAwayHt: Option<int>)
  {
    function TeamId(side: Side): int {
      if side == Home then homeTeamId else awayTeamId
    }

    function TeamName(side: Side): string {
      if side == Home then homeTeamName else awayTeamName
    }

    /** Full-time goals of one side. */
    function Goals(side: Side): Option<int> {
      if side == Home then goalsHome else goalsAway
    }

    /** Half-time goals of one side. */
    function HalfTimeGoals(side: Side): Option<int> {
      if side == Home then goalsHomeHt else goalsAwayHt
    }
  }

  /** `a > b` as the store and the data-frame layer evaluate it: never true when a side is NULL. */
  predicate Gt(a: Option<int>, b: Option<int>) {
    a.Some? && b.Some? && a.value > b.value
  }

  /** `a == b` under the same NULL rule: NULL equals nothing, not even NULL. */
  predicate Eq(a: Option<int>, b: Option<int>) {
    a.Some? && b.Some? && a.value == b.value
  }

  predicate IsFinished(f: Fixture) {
    f.status == Finished
  }

  /** The query predicate: a finished fixture of season `season` in which `team` played. */
  predicate IsSeasonResult(f: Fixture, team: int, season: string) {
    f.status == Finished && f.seasonYear == season && (f.homeTeamId == team || f.awayTeamId == team)
  }

  /** The query predicate as a row mask. */
  function SeasonResultMask(team: int, season: string): Fixture -> bool {
    (f: Fixture) => IsSeasonResult(f, team, season)
  }

  /** The rows the season queries read: the team's finished fixtures in that season. */
  function SeasonResults(store: seq<Fixture>, team: int, season: string): (rs: seq<Fixture>)
    ensures IsSubsequence(rs, store)
    ensures forall i :: 0 <= i < |rs| ==>
              && rs[i] in store
              && rs[i].status == Finished
              && rs[i].seasonYear == season
              && (rs[i].homeTeamId == team || rs[i].awayTeamId == team)
    ensures forall i :: 0 <= i < |store| && IsSeasonResult(store[i], team, season) ==> store[i] in rs
    ensures forall f :: multiset(rs)[f] == if IsSeasonResult(f, team, season) then multiset(store)[f] else 0
  {
    FilterCounts(SeasonResultMask(team, season), store);
    Filter(SeasonResultMask(team, season), store)
  }

  /** The side strictly ahead on the given score, if any; no side when a score is NULL. */
  function Leader(home: Option<int>, away: Option<int>): Option<Side> {
    match (home, away)
    case (Some(h), Some(a)) => if h > a then Some(Home) else if a > h then Some(Away) else None
    case _ => None
  }

  /** The comeback mask of the overcome-games query, as the SQL filter evaluates it. */
  predicate IsComeback(f: Fixture) {
    (Gt(f.goalsHomeHt, f.goalsAwayHt) && Gt(f.goalsAway, f.goalsHome))
    || (Gt(f.goalsAwayHt, f.goalsHomeHt) && Gt(f.goalsHome, f.goalsAway))
  }

  /**
   * The overcome games: fixtures where one side led at half time and the other side won at
   * full time. A level score at either time never qualifies.
   */
  function OvercomeGames(store: seq<Fixture>): (rs: seq<Fixture>)
    ensures IsSubsequence(rs, store)
    ensures forall i :: 0 <= i < |rs| ==>
              && rs[i] in store
              && Leader(rs[i].goalsHomeHt, rs[i].goalsAwayHt).Some?
              && Leader(rs[i].goalsHome, rs[i].goalsAway).Some?
              && Leader(rs[i].goalsHomeHt, rs[i].goalsAwayHt) != Leader(rs[i].goalsHome, rs[i].goalsAway)
    ensures forall i :: 0 <= i < |store| ==>
              var ht := Leader(store[i].goalsHomeHt, store[i].goalsAwayHt);
              var ft := Leader(store[i].goalsHome, store[i].goalsAway);
              ht.Some? && ft.Some? && ht != ft ==> store[i] in rs
    ensures forall i :: 0 <= i < |store| ==>
              var levelAtHalfTime := Eq(store[i].goalsHomeHt, store[i].goalsAwayHt);
              var levelAtFullTime := Eq(store[i].goalsHome, store[i].goalsAway);
              levelAtHalfTime || levelAtFullTime ==> store[i] !in rs
    ensures forall f :: multiset(rs)[f] == if IsComeback(f) then multiset(store)[f] else 0
  {
    FilterCounts(IsComeback, store);
    Filter(IsComeback, store)
  }
}
