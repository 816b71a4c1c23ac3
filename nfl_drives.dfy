/** Drives in the newer engine (nfl_types.py): where a drive starts, how it scores, the
    season-dependent team-name corrections, and the `Drive` object that holds them. */
module NflDrives {
  import opened Base
  import opened Feed
  import opened Scoring
  import opened Yardlines
  import opened NflPlays
  import opened Reconcile

  predicate IsKickoff(p: Play) {
    p.playType == Some("KICK_OFF")
  }

  /** `Drive.calculate_drive_start`: leading kickoffs are dropped; a lone kickoff gives an
      unknown position and clock; otherwise the first remaining play gives both. Every
      built play carries a `Yardline` object, so the source's branch for a play without
      one has no counterpart here. An empty list raises (`plays_list[0]`). */
  function DriveStart(ps: seq<Play>): (r: Result<(Yardline, Clock), FeedError>)
    ensures r.Err? <==> ps == []
    ensures r.Err? ==> r.error == EmptyDrive
    decreases |ps|
  {
    if |ps| == 1 && IsKickoff(ps[0]) then Ok((Unknown, Clock(None, None)))
    else if ps == [] then Err(EmptyDrive)
    else if IsKickoff(ps[0]) then DriveStart(ps[1..])
    else Ok((ps[0].yardline, ps[0].playTime))
  }

  /** A drive starts where and when its first play that is not a kickoff happens. */
  lemma {:induction false} DriveStartFirstNonKickoff(ps: seq<Play>, k: nat)
    requires k < |ps| && !IsKickoff(ps[k])
    requires forall j :: 0 <= j < k ==> IsKickoff(ps[j])
    ensures DriveStart(ps) == Ok((ps[k].yardline, ps[k].playTime))
    decreases k
  {
    if k > 0 {
      assert ps[1..][k - 1] == ps[k];
      DriveStartFirstNonKickoff(ps[1..], k - 1);
    }
  }

  /** A drive made only of kickoffs has an unknown start. */
  lemma {:induction false} DriveStartAllKickoffs(ps: seq<Play>)
    requires |ps| > 0 && forall j :: 0 <= j < |ps| ==> IsKickoff(ps[j])
    ensures DriveStart(ps) == Ok((Unknown, Clock(None, None)))
    decreases |ps|
  {
    if |ps| > 1 {
      assert forall j :: 0 <= j < |ps| - 1 ==> ps[1..][j] == ps[j + 1];
      DriveStartAllKickoffs(ps[1..]);
    }
  }

  /** The team-name corrections of `correct_drive_team`, applied to one field in the
      source's order. */
  function CorrectTeam(t: Option<string>, year: int): Option<string> {
    var a := if t == Some("JAX") && year < 2013 then Some("JAC") else t;
    var b := if a == Some("LAC") && year <= 2017 then Some("SD") else a;
    if b == Some("LA") && year <= 2016 then Some("STL") else b
  }

  /** Three rules, each bounded by a season: JAX is JAC before 2013, LAC is SD up to 2017,
      LA is STL up to 2016; every other name, and every name in a later season, is kept. */
  lemma CorrectTeamRules(t: Option<string>, year: int)
    ensures var r := CorrectTeam(t, year);
            (t == Some("JAX") && year < 2013 ==> r == Some("JAC")) &&
            (t == Some("LAC") && year <= 2017 ==> r == Some("SD")) &&
            (t == Some("LA") && year <= 2016 ==> r == Some("STL")) &&
            (r != t <==> (t == Some("JAX") && year < 2013) || (t == Some("LAC") && year <= 2017) ||
                         (t == Some("LA") && year <= 2016))
  {
  }

  /** Correcting twice is correcting once. */
  lemma CorrectTeamIdempotent(t: Option<string>, year: int)
    ensures CorrectTeam(CorrectTeam(t, year), year) == CorrectTeam(t, year)
  {
  }

  /** The fields of a drive. `driveStart`/`startTime` are absent until `__post_init__`
      has computed them; `points`/`scoringTeam` stay absent on a drive that does not score. */
  datatype DriveValue = DriveValue(
    driveId: int,
    plays: seq<Play>,
    posTeam: Option<string>,
    driveStart: Option<Yardline>,
    startTime: Option<Clock>,
    scoringTeam: Option<string>,
    points: Option<int>)

  /** What reconciliation reads and writes of a drive. */
  function TallyOf(v: DriveValue): Tally<Play> {
    Tally(v.driveId, v.plays, v.points, v.scoringTeam)
  }

  function TalliesOf(vs: seq<DriveValue>): (r: seq<Tally<Play>>)
    ensures |r| == |vs| && forall i :: 0 <= i < |vs| ==> r[i] == TallyOf(vs[i])
  {
    seq(|vs|, i requires 0 <= i < |vs| => TallyOf(vs[i]))
  }

  /** Replacing one drive replaces its tally and no other. */
  lemma TalliesOfUpdate(vs: seq<DriveValue>, k: nat, v: DriveValue)
    requires k < |vs|
    ensures TalliesOf(vs[k := v]) == TalliesOf(vs)[k := TallyOf(v)]
  {
  }

  /** The drive the rest of `__post_init__` leaves, after the plays' points are set:
      `calculate_scoring` raises on a sum over absent points; otherwise the drive is
      scored and then given its start, which raises on an empty drive. */
  function PostInitValue(v: DriveValue): (r: Result<DriveValue, FeedError>)
    ensures r.Err? <==> DriveScoring(Entries(v.plays, EntryOf)).SumFailed? || v.plays == []
    ensures r.Ok? ==> TallyOf(r.value) == Rescore(TallyOf(v), EntryOf)
    ensures r.Ok? ==> r.value.posTeam == v.posTeam &&
                      r.value.driveStart == Some(DriveStart(v.plays).value.0) &&
                      r.value.startTime == Some(DriveStart(v.plays).value.1)
    ensures r.Err? ==> r.error == if DriveScoring(Entries(v.plays, EntryOf)).SumFailed? then UnscorablePoints else EmptyDrive
  {
    if DriveScoring(Entries(v.plays, EntryOf)).SumFailed? then Err(UnscorablePoints)
    else
      var t := Rescore(TallyOf(v), EntryOf);
      var start :- DriveStart(v.plays);
      Ok(v.(scoringTeam := t.scoringTeam, points := t.points, driveStart := Some(start.0), startTime := Some(start.1)))
  }

  /** `Drive(drive_id, plays, pos_team)` with its `__post_init__`. */
  function BuildDrive(id: int, ps: seq<Play>, team: Option<string>): (r: Result<DriveValue, FeedError>)
    ensures r.Ok? ==> r.value.driveId == id && r.value.plays == AllWithPoints(ps) && r.value.posTeam == team
  {
    PostInitValue(DriveValue(id, AllWithPoints(ps), team, None, None, None, None))
  }

  /** A drive `__post_init__` completes on has its points and scoring team from its plays:
      the sum and the first scoring play's team when a play scores, absent otherwise. */
  lemma BuiltDriveConsistent(id: int, ps: seq<Play>, team: Option<string>)
    requires BuildDrive(id, ps, team).Ok?
    ensures Consistent(TallyOf(BuildDrive(id, ps, team).value), EntryOf)
    ensures var v := BuildDrive(id, ps, team).value;
            !AnyScores(Entries(v.plays, EntryOf)) ==> v.points.None? && v.scoringTeam.None?
  {
    var v := BuildDrive(id, ps, team).value;
    var es := Entries(v.plays, EntryOf);
    match DriveScoring(es)
    case Scored(s, _, _) =>
    case Unchanged =>
    case SumFailed =>
  }

  /** `correct_drive_team` on a drive's fields. */
  function CorrectValue(v: DriveValue, year: int): (r: DriveValue)
    ensures r == v.(posTeam := r.posTeam, scoringTeam := r.scoringTeam)
    ensures r.posTeam == CorrectTeam(v.posTeam, year) && r.scoringTeam == CorrectTeam(v.scoringTeam, year)
  {
    v.(posTeam := CorrectTeam(v.posTeam, year), scoringTeam := CorrectTeam(v.scoringTeam, year))
  }

  /** The arguments `_get_drive_details` passes to `Drive` for one raw drive, read in the
      source's order: sequence, plays, possessing team. */
  function DriveArgs(raw: RawDrive): (r: Result<(int, seq<Play>, Option<string>), FeedError>)
    ensures r.Ok? ==> raw.sequence == Some(r.value.0) && raw.plays.Some? &&
                      MapResult(raw.plays.value, ProcessPlayDict) == Ok(r.value.1) &&
                      raw.possessionTeamAbbr == r.value.2
    ensures r.Err? <==> raw.sequence.None? || raw.plays.None? || MapResult(raw.plays.value, ProcessPlayDict).Err? ||
                        raw.possessionTeamAbbr.None?
    ensures r.Err? ==> r.error == (if raw.sequence.None? then MissingSequence
                                   else if raw.plays.None? then MissingPlays
                                   else if MapResult(raw.plays.value, ProcessPlayDict).Err? then MapResult(raw.plays.value, ProcessPlayDict).error
                                   else MissingPossessionTeam)
  {
    if raw.sequence.None? then Err(MissingSequence)
    else if raw.plays.None? then Err(MissingPlays)
    else
      var ps :- MapResult(raw.plays.value, ProcessPlayDict);
      if raw.possessionTeamAbbr.None? then Err(MissingPossessionTeam)
      else Ok((raw.sequence.value, ps, raw.possessionTeamAbbr))
  }

  /** One element of the comprehension in `_get_drive_details`. */
  function RawToDrive(raw: RawDrive): (r: Result<DriveValue, FeedError>)
    ensures r.Ok? ==> r.value.driveStart.Some? && r.value.startTime.Some?
  {
    var args :- DriveArgs(raw);
    BuildDrive(args.0, args.1, args.2)
  }

  /** `Drive`. */
  class Drive {
    var driveId: int
    var plays: seq<Play>
    var posTeam: Option<string>
    var driveStart: Option<Yardline>
    var startTime: Option<Clock>
    var scoringTeam: Option<string>
    var points: Option<int>

    function Value(): DriveValue
      reads this
    {
      DriveValue(driveId, plays, posTeam, driveStart, startTime, scoringTeam, points)
    }

    function View(): Tally<Play>
      reads this
    {
      TallyOf(Value())
    }

    /** The dataclass `__init__` plus the first line of `__post_init__`, which sets every
        play's points. */
    constructor (id: int, ps: seq<Play>, team: Option<string>)
      ensures Value() == DriveValue(id, AllWithPoints(ps), team, None, None, None, None)
    {
      driveId := id;
      plays := AllWithPoints(ps);
      posTeam := team;
      driveStart := None;
      startTime := None;
      scoringTeam := None;
      points := None;
    }

    /** `calculate_scoring`: on a drive with a scoring play, the sum of the points and the
        first scoring play's team; otherwise nothing changes. The sum raises on absent
        points, before anything is assigned. */
    method CalculateScoring() returns (err: Option<FeedError>)
      modifies this
      ensures View() == Rescore(old(View()), EntryOf)
      ensures posTeam == old(posTeam) && driveStart == old(driveStart) && startTime == old(startTime)
      ensures err == if DriveScoring(Entries(plays, EntryOf)).SumFailed? then Some(UnscorablePoints) else None
    {
      match DriveScoring(Entries(plays, EntryOf))
      case Scored(s, team, _) =>
        points := Some(s);
        scoringTeam := team;
        err := None;
      case SumFailed =>
        err := Some(UnscorablePoints);
      case Unchanged =>
        err := None;
    }

    /** `plays.append(play)` followed by `calculate_scoring()`. */
    method AppendPlay(u: Play) returns (err: Option<FeedError>)
      modifies this
      ensures View() == Rescore(old(View()).(plays := old(plays) + [u]), EntryOf)
      ensures posTeam == old(posTeam) && driveStart == old(driveStart) && startTime == old(startTime)
      ensures err == if DriveScoring(Entries(old(plays) + [u], EntryOf)).SumFailed? then Some(UnscorablePoints) else None
    {
      plays := plays + [u];
      err := CalculateScoring();
    }

    /** The rest of `__post_init__`: scoring, then the start. */
    method PostInit() returns (err: Option<FeedError>)
      modifies this
      ensures err.None? <==> PostInitValue(old(Value())).Ok?
      ensures err.None? ==> Value() == PostInitValue(old(Value())).value
      ensures err.Some? ==> err.value == PostInitValue(old(Value())).error
    {
      err := CalculateScoring();
      if err.None? {
        match DriveStart(plays)
        case Err(e) =>
          err := Some(e);
        case Ok(start) =>
          driveStart := Some(start.0);
          startTime := Some(start.1);
      }
    }

    /** `correct_drive_team`: six checks in the source's order, each rewriting one field. */
    method CorrectDriveTeam(seasonYear: int)
      modifies this
      ensures Value() == CorrectValue(old(Value()), seasonYear)
    {
      if posTeam == Some("JAX") && seasonYear < 2013 {
        posTeam := Some("JAC");
      }
      if scoringTeam == Some("JAX") && seasonYear < 2013 {
        scoringTeam := Some("JAC");
      }
      if posTeam == Some("LAC") && seasonYear <= 2017 {
        posTeam := Some("SD");
      }
      if scoringTeam == Some("LAC") && seasonYear <= 2017 {
        scoringTeam := Some("SD");
      }
      if posTeam == Some("LA") && seasonYear <= 2016 {
        posTeam := Some("STL");
      }
      if scoringTeam == Some("LA") && seasonYear <= 2016 {
        scoringTeam := Some("STL");
      }
    }
  }
}
