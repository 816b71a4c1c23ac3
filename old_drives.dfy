/** Drives in the older engine (nfl_data_parser/drive_parser.py): where a drive starts, how
    it scores, and the `Drive` object that holds them. The older `Drive` keeps the feed's
    start and end times and has no team-name corrections. */
module OldDrives {
  import opened Base
  import opened Feed
  import opened Scoring
  import opened OldPlays
  import opened Reconcile

  predicate IsKickoff(p: OldPlay) {
    p.playType == Some("KICK_OFF")
  }

  /** A play `calculate_drive_start` passes over: a kickoff, or a play without a position. */
  predicate Skipped(p: OldPlay) {
    IsKickoff(p) || p.yardline.None?
  }

  /** `Drive.calculate_drive_start`: a single remaining play gives an unknown start
      whatever it is; otherwise leading kickoffs and plays without a position are dropped
      and the first remaining play's position is the start. An empty list raises
      (`plays_list[0]`). */
  function DriveStart(ps: seq<OldPlay>): (r: Result<OldYardline, FeedError>)
    ensures r.Err? <==> ps == []
    ensures r.Err? ==> r.error == EmptyDrive
    decreases |ps|
  {
    if |ps| == 1 then Ok(UnknownStart)
    else if ps == [] then Err(EmptyDrive)
    else if IsKickoff(ps[0]) then DriveStart(ps[1..])
    else if ps[0].yardline.Some? then Ok(ps[0].yardline.value)
    else DriveStart(ps[1..])
  }

  /** A drive starts at the first play that is not passed over, provided that play is not
      the drive's last. */
  lemma {:induction false} DriveStartFirstPlaced(ps: seq<OldPlay>, k: nat)
    requires k < |ps| - 1 && !Skipped(ps[k])
    requires forall j :: 0 <= j < k ==> Skipped(ps[j])
    ensures DriveStart(ps) == Ok(ps[k].yardline.value)
    decreases k
  {
    if k > 0 {
      assert ps[1..][k - 1] == ps[k];
      DriveStartFirstPlaced(ps[1..], k - 1);
    }
  }

  /** When every play but the last is passed over, the start is unknown. */
  lemma {:induction false} DriveStartNonePlaced(ps: seq<OldPlay>)
    requires |ps| > 0 && forall j :: 0 <= j < |ps| - 1 ==> Skipped(ps[j])
    ensures DriveStart(ps) == Ok(UnknownStart)
    decreases |ps|
  {
    if |ps| > 1 {
      assert forall j :: 0 <= j < |ps| - 2 ==> ps[1..][j] == ps[j + 1];
      DriveStartNonePlaced(ps[1..]);
    }
  }

  /** The last play of a drive is never its start: replacing it changes nothing. */
  lemma {:induction false} DriveStartIgnoresLast(ps: seq<OldPlay>, p: OldPlay, q: OldPlay)
    requires ps != []
    ensures DriveStart(ps + [p]) == DriveStart(ps + [q])
    decreases |ps|
  {
    assert (ps + [p])[0] == ps[0] && (ps + [q])[0] == ps[0];
    assert (ps + [p])[1..] == ps[1..] + [p] && (ps + [q])[1..] == ps[1..] + [q];
    if |ps| > 1 {
      DriveStartIgnoresLast(ps[1..], p, q);
    }
  }

  /** The fields of a drive. `driveStart` is absent until `__post_init__` has computed it;
      `points`/`scoringTeam` stay absent on a drive that does not score. */
  datatype OldDriveValue = OldDriveValue(
    driveId: int,
    startTime: string,
    endTime: string,
    plays: seq<OldPlay>,
    posTeam: string,
    driveStart: Option<OldYardline>,
    scoringTeam: Option<string>,
    points: Option<int>)

  /** What reconciliation reads and writes of a drive. */
  function OldTallyOf(v: OldDriveValue): Tally<OldPlay> {
    Tally(v.driveId, v.plays, v.points, v.scoringTeam)
  }

  function OldTalliesOf(vs: seq<OldDriveValue>): (r: seq<Tally<OldPlay>>)
    ensures |r| == |vs| && forall i :: 0 <= i < |vs| ==> r[i] == OldTallyOf(vs[i])
  {
    seq(|vs|, i requires 0 <= i < |vs| => OldTallyOf(vs[i]))
  }

  /** Replacing one drive replaces its tally and no other. */
  lemma OldTalliesOfUpdate(vs: seq<OldDriveValue>, k: nat, v: OldDriveValue)
    requires k < |vs|
    ensures OldTalliesOf(vs[k := v]) == OldTalliesOf(vs)[k := OldTallyOf(v)]
  {
  }

  /** The drive the rest of `__post_init__` leaves, after the plays' points are set:
      `calculate_scoring` raises on a sum over absent points; otherwise the drive is
      scored and then given its start, which raises on an empty drive. */
  function OldPostInitValue(v: OldDriveValue): (r: Result<OldDriveValue, FeedError>)
    ensures r.Err? <==> DriveScoring(Entries(v.plays, OldEntryOf)).SumFailed? || v.plays == []
    ensures r.Ok? ==> OldTallyOf(r.value) == Rescore(OldTallyOf(v), OldEntryOf)
    ensures r.Ok? ==> r.value.posTeam == v.posTeam && r.value.startTime == v.startTime &&
                      r.value.endTime == v.endTime && r.value.driveStart == Some(DriveStart(v.plays).value)
    ensures r.Err? ==> r.error == if DriveScoring(Entries(v.plays, OldEntryOf)).SumFailed? then UnscorablePoints else EmptyDrive
  {
    if DriveScoring(Entries(v.plays, OldEntryOf)).SumFailed? then Err(UnscorablePoints)
    else
      var t := Rescore(OldTallyOf(v), OldEntryOf);
      var start :- DriveStart(v.plays);
      Ok(v.(scoringTeam := t.scoringTeam, points := t.points, driveStart := Some(start)))
  }

  /** `Drive(drive_id, start_time, end_time, plays, pos_team)` with its `__post_init__`. */
  function OldBuildDrive(id: int, st: string, et: string, ps: seq<OldPlay>, team: string): (r: Result<OldDriveValue, FeedError>)
    ensures r.Ok? ==> r.value.driveId == id && r.value.plays == AllOldWithPoints(ps) && r.value.posTeam == team
  {
    OldPostInitValue(OldDriveValue(id, st, et, AllOldWithPoints(ps), team, None, None, None))
  }

  /** A drive `__post_init__` completes on has its points and scoring team from its plays:
      the sum and the first scoring play's team when a play scores, absent otherwise. */
  lemma OldBuiltDriveConsistent(id: int, st: string, et: string, ps: seq<OldPlay>, team: string)
    requires OldBuildDrive(id, st, et, ps, team).Ok?
    ensures Consistent(OldTallyOf(OldBuildDrive(id, st, et, ps, team).value), OldEntryOf)
    ensures var v := OldBuildDrive(id, st, et, ps, team).value;
            !AnyScores(Entries(v.plays, OldEntryOf)) ==> v.points.None? && v.scoringTeam.None?
  {
    var v := OldBuildDrive(id, st, et, ps, team).value;
    match DriveScoring(Entries(v.plays, OldEntryOf))
    case Scored(s, _, _) =>
    case Unchanged =>
    case SumFailed =>
  }

  /** The arguments `_get_drive_details` passes to `Drive` for one raw drive, read in the
      source's order: sequence, start time, end time, plays, possessing team. */
  function OldDriveArgs(raw: RawDrive): (r: Result<(int, string, string, seq<OldPlay>, string), FeedError>)
    ensures r.Ok? ==> raw.sequence == Some(r.value.0) && raw.startTime == Some(r.value.1) &&
                      raw.endTime == Some(r.value.2) && raw.plays.Some? &&
                      MapResult(raw.plays.value, ProcessPlay) == Ok(r.value.3) &&
                      raw.possessionTeamAbbr == Some(r.value.4)
    ensures r.Err? <==> raw.sequence.None? || raw.startTime.None? || raw.endTime.None? || raw.plays.None? ||
                        MapResult(raw.plays.value, ProcessPlay).Err? || raw.possessionTeamAbbr.None?
    ensures r.Err? ==> r.error == (if raw.sequence.None? then MissingSequence
                                   else if raw.startTime.None? || raw.endTime.None? then MissingDriveTime
                                   else if raw.plays.None? then MissingPlays
                                   else if MapResult(raw.plays.value, ProcessPlay).Err? then MapResult(raw.plays.value, ProcessPlay).error
                                   else MissingPossessionTeam)
  {
    if raw.sequence.None? then Err(MissingSequence)
    else if raw.startTime.None? || raw.endTime.None? then Err(MissingDriveTime)
    else if raw.plays.None? then Err(MissingPlays)
    else
      var ps :- MapResult(raw.plays.value, ProcessPlay);
      if raw.possessionTeamAbbr.None? then Err(MissingPossessionTeam)
      else Ok((raw.sequence.value, raw.startTime.value, raw.endTime.value, ps, raw.possessionTeamAbbr.value))
  }

  /** One element of the comprehension in `_get_drive_details`. */
  function OldRawToDrive(raw: RawDrive): (r: Result<OldDriveValue, FeedError>)
    ensures r.Ok? ==> r.value.driveStart.Some?
  {
    var args :- OldDriveArgs(raw);
    OldBuildDrive(args.0, args.1, args.2, args.3, args.4)
  }

  /** `Drive`. */
  class OldDrive {
    var driveId: int
    var startTime: string
    var endTime: string
    var plays: seq<OldPlay>
    var posTeam: string
    var driveStart: Option<OldYardline>
    var scoringTeam: Option<string>
    var points: Option<int>

    function Value(): OldDriveValue
      reads this
    {
      OldDriveValue(driveId, startTime, endTime, plays, posTeam, driveStart, scoringTeam, points)
    }

    function View(): Tally<OldPlay>
      reads this
    {
      OldTallyOf(Value())
    }

    /** The dataclass `__init__` plus the first line of `__post_init__`, which sets every
        play's points. */
    constructor (id: int, st: string, et: string, ps: seq<OldPlay>, team: string)
      ensures Value() == OldDriveValue(id, st, et, AllOldWithPoints(ps), team, None, None, None)
    {
      driveId := id;
      startTime := st;
      endTime := et;
      plays := AllOldWithPoints(ps);
      posTeam := team;
      driveStart := None;
      scoringTeam := None;
      points := None;
    }

    /** `calculate_scoring`: on a drive with a scoring play, the sum of the points and the
        first scoring play's team; otherwise nothing changes. The sum raises on absent
        points, before anything is assigned. */
    method CalculateScoring() returns (err: Option<FeedError>)
      modifies this
      ensures View() == Rescore(old(View()), OldEntryOf)
      ensures posTeam == old(posTeam) && driveStart == old(driveStart) &&
              startTime == old(startTime) && endTime == old(endTime)
      ensures err == if DriveScoring(Entries(plays, OldEntryOf)).SumFailed? then Some(UnscorablePoints) else None
    {
      match DriveScoring(Entries(plays, OldEntryOf))
      case Scored(s, team, _) =>
        points := Some(s);
        scoringTeam := team;
        err := None;
      case SumFailed =>
        err := Some(UnscorablePoints);
      case Unchanged =>
        err := None;
    }

    /** `plays.append(play)` followed by `calculate_scoring()`. */
    method AppendPlay(u: OldPlay) returns (err: Option<FeedError>)
      modifies this
      ensures View() == Rescore(old(View()).(plays := old(plays) + [u]), OldEntryOf)
      ensures posTeam == old(posTeam) && driveStart == old(driveStart) && startTime == old(startTime) && endTime == old(endTime)
      ensures err == if DriveScoring(Entries(old(plays) + [u], OldEntryOf)).SumFailed? then Some(UnscorablePoints) else None
    {
      plays := plays + [u];
      err := CalculateScoring();
    }

    /** The rest of `__post_init__`: scoring, then the start. */
    method PostInit() returns (err: Option<FeedError>)
      modifies this
      ensures err.None? <==> OldPostInitValue(old(Value())).Ok?
      ensures err.None? ==> Value() == OldPostInitValue(old(Value())).value
      ensures err.Some? ==> err.value == OldPostInitValue(old(Value())).error
    {
      err := CalculateScoring();
      if err.None? {
        match DriveStart(plays)
        case Err(e) =>
          err := Some(e);
        case Ok(start) =>
          driveStart := Some(start);
      }
    }
  }
}
