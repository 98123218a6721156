/**
 * Selection of the fixtures a league table is built from: every finished fixture, the last
 * five rounds (not implemented), or the regular-season rounds up to a given number.
 */
module Rounds {
  import opened Wrappers
  import opened Sequences
  import opened Text
  import opened Fixtures

  /** The text that marks a regular-season round label, as in "Regular Season - 12". */
  const RegularSeason: string := "Regular Season"

  /** The `rounds` argument: a mode name, or a number of rounds. */
  datatype RoundsArg = Named(name: string) | UpTo(rounds: int)

  /** Data-quality failures of the numeric mode. */
  datatype RoundError =
    | MissingRound                        // some row has a NULL round label
    | UnparsableRound(roundLabel: string)  // a regular-season label without a number that fits in int64

  /** The range of `int64`, the column type the round numbers are converted to. */
  const Int64Min: int := -0x8000_0000_0000_0000
  const Int64Max: int := 0x7FFF_FFFF_FFFF_FFFF

  /**
   * The number of a round label: the text between its first and second '-' (or after the
   * first '-' when there is no second one), stripped and read as an integer. No number when
   * the label has no '-', that text is not an integer literal, or its value does not fit in
   * an `int64` (the conversion overflows).
   */
  function RoundNumber(roundLabel: string): (n: Option<int>)
    ensures n.Some? ==> '-' in roundLabel
    ensures n.Some? ==> Int64Min <= n.value <= Int64Max
  {
    var parts := Split(roundLabel, '-');
    if |parts| < 2 then None
    else match ParseInt(Strip(parts[1]))
      case Some(v) => if Int64Min <= v <= Int64Max then Some(v) else None
      case None => None
  }

  /**
   * A regular-season label "Regular Season - n" carries its round number n when n fits in an
   * `int64`, and no number otherwise.
   */
  lemma {:induction false} RoundNumberOfLabel(n: nat)
    ensures Contains(RegularSeason + " - " + ShowNat(n), RegularSeason)
    ensures RoundNumber(RegularSeason + " - " + ShowNat(n)) == if n <= Int64Max then Some(n) else None
  {
    var digits := ShowNat(n);
    var roundLabel := RegularSeason + " - " + digits;
    assert roundLabel[..|RegularSeason|] == RegularSeason;
    assert roundLabel[15] == '-';
    assert '-' !in roundLabel[..15] by {
      assert roundLabel[..15] == "Regular Season ";
    }
    var found := Find(roundLabel, '-');
    assert found == Some(15);
    var rest := roundLabel[16..];
    assert rest == " " + digits;
    assert '-' !in rest by {
      forall i | 0 <= i < |rest|
        ensures rest[i] != '-'
      {
        if i > 0 {
          assert rest[i] == digits[i - 1];
        }
      }
    }
    assert Find(rest, '-') == None;
    assert Split(rest, '-') == [rest];
    assert Split(roundLabel, '-') == [roundLabel[..15], rest];
    StripSurrounded(" ", digits, "");
    assert rest == " " + digits + "";
    ParseShowNat(n);
  }

  predicate IsRegularSeason(f: Fixture) {
    f.round.Some? && Contains(f.round.value, RegularSeason)
  }

  predicate HasRoundNumber(f: Fixture) {
    f.round.Some? && RoundNumber(f.round.value).Some?
  }

  predicate RoundAtMost(f: Fixture, rounds: int) {
    HasRoundNumber(f) && RoundNumber(f.round.value).value <= rounds
  }

  function AtMostMask(rounds: int): Fixture -> bool {
    (f: Fixture) => RoundAtMost(f, rounds)
  }

  function RegularUpToMask(rounds: int): Fixture -> bool {
    (f: Fixture) => IsRegularSeason(f) && RoundAtMost(f, rounds)
  }

  /**
   * The regular-season rows, then those up to `rounds`: a subsequence of the input holding
   * every copy of each regular-season row numbered at most `rounds`, and nothing else.
   */
  lemma UpToSelection(fs: seq<Fixture>, rounds: int)
    ensures var kept := Filter(AtMostMask(rounds), Filter(IsRegularSeason, fs));
            && IsSubsequence(kept, fs)
            && (forall i :: 0 <= i < |kept| ==>
                  kept[i] in fs && IsRegularSeason(kept[i]) && RoundAtMost(kept[i], rounds))
            && (forall i :: 0 <= i < |fs| && IsRegularSeason(fs[i]) && RoundAtMost(fs[i], rounds) ==>
                  fs[i] in kept)
            && (forall f :: multiset(kept)[f] ==
                  if IsRegularSeason(f) && RoundAtMost(f, rounds) then multiset(fs)[f] else 0)
  {
    FilterOfFilter(IsRegularSeason, AtMostMask(rounds), RegularUpToMask(rounds), fs);
    FilterCounts(RegularUpToMask(rounds), fs);
  }

  /** Position of the first row whose round yields no number, if any. */
  function FirstWithoutNumber(fs: seq<Fixture>): (r: Option<nat>)
    ensures r.None? <==> forall i :: 0 <= i < |fs| ==> HasRoundNumber(fs[i])
    ensures r.Some? ==> r.value < |fs| && !HasRoundNumber(fs[r.value])
    decreases |fs|
  {
    if |fs| == 0 then None
    else if !HasRoundNumber(fs[0]) then Some(0)
    else
      match FirstWithoutNumber(fs[1..])
      case None => None
      case Some(i) => Some(i + 1)
  }

  /**
   * The numeric mode's checks, in the code's order: a NULL round label anywhere, then the first
   * regular-season label without a readable number.
   */
  function CheckRounds(fs: seq<Fixture>): (e: Option<RoundError>)
    ensures e == Some(MissingRound) <==> exists i :: 0 <= i < |fs| && fs[i].round.None?
    ensures e.Some? && e.value.UnparsableRound? ==>
              exists i :: 0 <= i < |fs| && IsRegularSeason(fs[i]) && !HasRoundNumber(fs[i])
                          && fs[i].round == Some(e.value.roundLabel)
    ensures e.None? <==> forall i :: 0 <= i < |fs| ==>
                           fs[i].round.Some? && (IsRegularSeason(fs[i]) ==> HasRoundNumber(fs[i]))
  {
    if exists i :: 0 <= i < |fs| && fs[i].round.None? then Some(MissingRound)
    else
      var regular := Filter(IsRegularSeason, fs);
      match FirstWithoutNumber(regular)
      case Some(i) => Some(UnparsableRound(regular[i].round.value))
      case None => None
  }

  /**
   * The numeric mode: keeps the regular-season rows whose round number is at most `rounds`,
   * in input order. Fails when a round label is NULL, or when a regular-season label has no
   * readable number (reporting the first such label).
   */
  function FilterUpTo(fs: seq<Fixture>, rounds: int): (r: Result<seq<Fixture>, RoundError>)
    ensures r == Err(MissingRound) <==> exists i :: 0 <= i < |fs| && fs[i].round.None?
    ensures r.Err? && r.error.UnparsableRound? ==>
              exists i :: 0 <= i < |fs| && IsRegularSeason(fs[i]) && !HasRoundNumber(fs[i])
                          && fs[i].round == Some(r.error.roundLabel)
    ensures r.Ok? <==> forall i :: 0 <= i < |fs| ==>
                         fs[i].round.Some? && (IsRegularSeason(fs[i]) ==> HasRoundNumber(fs[i]))
    ensures r.Ok? ==>
              && IsSubsequence(r.value, fs)
              && (forall i :: 0 <= i < |r.value| ==>
                    r.value[i] in fs && IsRegularSeason(r.value[i]) && RoundAtMost(r.value[i], rounds))
              && (forall i :: 0 <= i < |fs| && IsRegularSeason(fs[i]) && RoundAtMost(fs[i], rounds) ==>
                    fs[i] in r.value)
    ensures r.Ok? ==> forall f :: multiset(r.value)[f] ==
                        if IsRegularSeason(f) && RoundAtMost(f, rounds) then multiset(fs)[f] else 0
  {
    match CheckRounds(fs)
    case Some(e) => Err(e)
    case None =>
      UpToSelection(fs, rounds);
      Ok(Filter(AtMostMask(rounds), Filter(IsRegularSeason, fs)))
  }

  /**
   * The fixture selection of a league table. "all_finished" keeps the finished rows;
   * "last_5" and any other name give no table. A number selects as `FilterUpTo` does.
   */
  function FilterByRounds(fs: seq<Fixture>, arg: RoundsArg): (r: Result<Option<seq<Fixture>>, RoundError>)
    ensures arg == Named("all_finished") ==>
              && r.Ok? && r.value.Some?
              && IsSubsequence(r.value.value, fs)
              && (forall i :: 0 <= i < |r.value.value| ==> r.value.value[i] in fs && IsFinished(r.value.value[i]))
              && (forall i :: 0 <= i < |fs| && IsFinished(fs[i]) ==> fs[i] in r.value.value)
              && (forall f :: multiset(r.value.value)[f] == if IsFinished(f) then multiset(fs)[f] else 0)
    ensures arg.Named? && arg.name != "all_finished" ==> r == Ok(None)
    ensures arg.UpTo? ==> (r.Err? <==> FilterUpTo(fs, arg.rounds).Err?)
    ensures arg.UpTo? && r.Err? ==> r.error == FilterUpTo(fs, arg.rounds).error
    ensures arg.UpTo? && r.Ok? ==> r.value == Some(FilterUpTo(fs, arg.rounds).value)
  {
    match arg
    case Named(name) =>
      if name == "all_finished" then
        FilterCounts(IsFinished, fs);
        Ok(Some(Filter(IsFinished, fs)))
      else Ok(None)
    case UpTo(rounds) =>
      match FilterUpTo(fs, rounds)
      case Err(e) => Err(e)
      case Ok(kept) => Ok(Some(kept))
  }
}
