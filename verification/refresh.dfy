/**
 * The dates whose fixtures need re-fetching: every day from the earliest not-started fixture
 * of the current season up to today, both included.
 */
module Refresh {
  import opened Wrappers
  import opened Fixtures

  /** The season the refresh looks at; the code fixes it. */
  const CurrentSeason: string := "2023"

  /** Why no date list could be produced. */
  datatype RefreshError =
    | NoPendingFixture  // no not-started fixture in the season, so there is no earliest date

  /** A fixture of `season` that has not started yet. */
  predicate IsPending(f: Fixture, season: string) {
    f.status == NotStarted && f.seasonYear == season
  }

  /** The earliest date of a pending fixture of `season` (the `min(date)` query), if any. */
  function EarliestPending(fs: seq<Fixture>, season: string): (d: Option<int>)
    ensures d.None? <==> forall i :: 0 <= i < |fs| ==> !IsPending(fs[i], season)
    ensures d.Some? ==> exists i :: 0 <= i < |fs| && IsPending(fs[i], season) && fs[i].date == d.value
    ensures d.Some? ==> forall i :: 0 <= i < |fs| && IsPending(fs[i], season) ==> d.value <= fs[i].date
    decreases |fs|
  {
    if |fs| == 0 then None
    else
      var rest := EarliestPending(fs[1..], season);
      assert forall i :: 1 <= i < |fs| ==> fs[i] == fs[1..][i - 1];
      if !IsPending(fs[0], season) then rest
      else if rest.Some? && rest.value < fs[0].date then rest
      else Some(fs[0].date)
  }

  /**
   * The days `first`, `first + 1`, ..., `last`: `last - first + 1` of them, none when
   * `first` is after `last`.
   */
  method DateRange(first: int, last: int) returns (days: seq<int>)
    ensures |days| == if first <= last then last - first + 1 else 0
    ensures forall i :: 0 <= i < |days| ==> days[i] == first + i
    ensures |days| > 0 ==> days[0] == first && days[|days| - 1] == last
    ensures forall i :: 0 < i < |days| ==> days[i] == days[i - 1] + 1
  {
    var count := last - first + 1;
    days := [];
    var x := 0;
    while x < count
      invariant 0 <= x
      invariant x <= count || x == 0
      invariant |days| == x
      invariant forall i :: 0 <= i < x ==> days[i] == first + i
    {
      days := days + [first + x];
      x := x + 1;
    }
  }

  /**
   * The refresh dates of the current season: from its earliest pending fixture through
   * `today`, or an error when the season has no pending fixture.
   */
  method DatesToUpdate(fs: seq<Fixture>, today: int) returns (r: Result<seq<int>, RefreshError>)
    ensures r.Err? <==> forall i :: 0 <= i < |fs| ==> !IsPending(fs[i], CurrentSeason)
    ensures r.Ok? ==>
              var start := EarliestPending(fs, CurrentSeason).value;
              && |r.value| == (if start <= today then today - start + 1 else 0)
              && forall i :: 0 <= i < |r.value| ==> r.value[i] == start + i
    ensures r.Ok? && |r.value| > 0 ==>
              r.value[|r.value| - 1] == today
              && exists i :: 0 <= i < |fs| && IsPending(fs[i], CurrentSeason) && fs[i].date == r.value[0]
  {
    match EarliestPending(fs, CurrentSeason)
    case None =>
      r := Err(NoPendingFixture);
    case Some(start) =>
      var days := DateRange(start, today);
      r := Ok(days);
  }
}
