/** A game in the older engine (nfl_data_parser/drive_parser.py `Game`): building its drives
    from the feed, checking them against the final score, reconciling scoring plays the
    drives miss, the duplicate-id scan, and the drive-level export record. */
module OldGame {
  import opened Base
  import opened Feed
  import opened Scoring
  import opened OldPlays
  import opened Reconcile
  import opened OldDrives

  /** `_get_drive_details`: every drive of the feed, built in order, the first raising
      drive deciding the error. */
  function OldBuildDrives(raws: seq<RawDrive>): Result<seq<OldDriveValue>, FeedError> {
    MapResult(raws, OldRawToDrive)
  }

  /** `full_dict['scoringPlays']['play']`, each one built and given its points. */
  function OldScoringPlays(feed: RawGame): (r: Result<seq<OldPlay>, FeedError>)
    ensures feed.scoringPlays.None? ==> r == Err(MissingScoringPlays)
    ensures r.Err? <==> feed.scoringPlays.None? || MapResult(feed.scoringPlays.value, ProcessPlay).Err?
    ensures r.Err? && feed.scoringPlays.Some? ==> r.error == MapResult(feed.scoringPlays.value, ProcessPlay).error
    ensures r.Ok? ==> feed.scoringPlays.Some? && |r.value| == |feed.scoringPlays.value| &&
                      forall i :: 0 <= i < |r.value| ==>
                        ProcessPlay(feed.scoringPlays.value[i]).Ok? &&
                        r.value[i] == OldWithPoints(ProcessPlay(feed.scoringPlays.value[i]).value)
  {
    if feed.scoringPlays.None? then Err(MissingScoringPlays)
    else
      var ps :- MapResult(feed.scoringPlays.value, ProcessPlay);
      Ok(AllOldWithPoints(ps))
  }

  /** The values of a list of drive objects. */
  function OldValuesOf(ds: seq<OldDrive>): (r: seq<OldDriveValue>)
    reads set d | d in ds
    ensures |r| == |ds| && forall i :: 0 <= i < |ds| ==> r[i] == ds[i].Value()
  {
    seq(|ds|, i requires 0 <= i < |ds| reads set d | d in ds => ds[i].Value())
  }

  /** One line of the export: a drive's id, team, starting `yard_int`, number of plays,
      scoring team and points. */
  datatype OldDriveRecord = OldDriveRecord(
    driveId: int,
    drivePosTeam: string,
    driveStart: Option<int>,
    driveNumPlays: nat,
    driveScoringTeam: Option<string>,
    drivePoints: Option<int>)

  datatype OldGameRecord = OldGameRecord(
    gameId: string,
    seasonYear: int,
    seasonType: string,
    gameWeek: int,
    homeTeam: string,
    awayTeam: string,
    drives: seq<OldDriveRecord>)

  /** What `get_game_details` reports: the result of the second integrity check, printed
      only when the first one failed, and, per drive, whether the duplicate-id warning is
      logged. */
  datatype OldGameReport = OldGameReport(printedCheck: Option<bool>, duplicatePlayIds: seq<bool>)

  /** The exported points of all drives, an absent value counting as none. */
  function OldExportedPoints(rs: seq<OldDriveRecord>): int {
    if rs == [] then 0 else PointsOrZero(rs[0].drivePoints) + OldExportedPoints(rs[1..])
  }

  /** `export`'s record of one drive that `__post_init__` has completed: every play
      counts, administrative ones included. */
  function OldExportDrive(v: OldDriveValue): (r: OldDriveRecord)
    requires v.driveStart.Some?
    ensures r.driveId == v.driveId && r.drivePosTeam == v.posTeam
    ensures r.driveNumPlays == |v.plays| && r.driveStart == v.driveStart.value.yardInt
    ensures r.drivePoints == v.points && r.driveScoringTeam == v.scoringTeam
  {
    OldDriveRecord(v.driveId, v.posTeam, v.driveStart.value.yardInt, |v.plays|, v.scoringTeam, v.points)
  }

  /** The exported points are the drives' recorded points. */
  lemma {:induction false} OldExportedPointsSum(vs: seq<OldDriveValue>, rs: seq<OldDriveRecord>)
    requires |rs| == |vs| && forall i :: 0 <= i < |vs| ==> vs[i].driveStart.Some? && rs[i] == OldExportDrive(vs[i])
    ensures OldExportedPoints(rs) == DrivePointsSum(OldTalliesOf(vs))
  {
    if vs != [] {
      assert OldTalliesOf(vs)[1..] == OldTalliesOf(vs[1..]);
      OldExportedPointsSum(vs[1..], rs[1..]);
    }
  }

  /** Every drive the feed yields has points that agree with its plays. */
  lemma OldBuiltDrivesConsistent(raws: seq<RawDrive>)
    requires OldBuildDrives(raws).Ok?
    ensures AllConsistent(OldTalliesOf(OldBuildDrives(raws).value), OldEntryOf)
  {
    var vs := OldBuildDrives(raws).value;
    forall j | 0 <= j < |vs|
      ensures Consistent(OldTallyOf(vs[j]), OldEntryOf)
    {
      var args := OldDriveArgs(raws[j]).value;
      OldBuiltDriveConsistent(args.0, args.1, args.2, args.3, args.4);
    }
  }

  /** Reconciliation leaves each drive's team, times and start as they were. */
  predicate OldSameStarts(vs: seq<OldDriveValue>, ws: seq<OldDriveValue>) {
    |vs| == |ws| &&
    forall j :: 0 <= j < |vs| ==>
      ws[j].posTeam == vs[j].posTeam && ws[j].driveStart == vs[j].driveStart &&
      ws[j].startTime == vs[j].startTime && ws[j].endTime == vs[j].endTime
  }

  /** `Game`. */
  class OldGame {
    const seasonYear: int
    const seasonType: string
    const gameWeek: int
    const homeTeam: string
    const awayTeam: string
    const gameId: string
    var drives: seq<OldDrive>
    var homeScore: int
    var awayScore: int

    /** The drives are distinct objects, each past its `__post_init__`. */
    ghost predicate Valid()
      reads this, set d | d in drives
    {
      (forall i, j :: 0 <= i < j < |drives| ==> drives[i] != drives[j]) &&
      forall i :: 0 <= i < |drives| ==> drives[i].driveStart.Some?
    }

    /** The drives as values, in order. */
    function Values(): seq<OldDriveValue>
      reads this, set d | d in drives
    {
      OldValuesOf(drives)
    }

    /** What reconciliation sees of each drive. */
    function Tallies(): seq<Tally<OldPlay>>
      reads this, set d | d in drives
    {
      OldTalliesOf(Values())
    }

    constructor (seasonYear: int, seasonType: string, gameWeek: int, homeTeam: string, awayTeam: string, gameId: string)
      ensures this.seasonYear == seasonYear && this.seasonType == seasonType && this.gameWeek == gameWeek
      ensures this.homeTeam == homeTeam && this.awayTeam == awayTeam && this.gameId == gameId
      ensures drives == [] && homeScore == 0 && awayScore == 0
    {
      this.seasonYear := seasonYear;
      this.seasonType := seasonType;
      this.gameWeek := gameWeek;
      this.homeTeam := homeTeam;
      this.awayTeam := awayTeam;
      this.gameId := gameId;
      drives := [];
      homeScore := 0;
      awayScore := 0;
    }

    /** One drive object of the comprehension of `_get_drive_details`: its arguments
        read from the raw drive, then `__init__` and `__post_init__`. */
    static method NewDrive(raw: RawDrive) returns (d: OldDrive?, err: Option<FeedError>)
      ensures err.None? <==> OldRawToDrive(raw).Ok?
      ensures err.Some? ==> err.value == OldRawToDrive(raw).error
      ensures err.None? ==> d != null && fresh(d) && d.Value() == OldRawToDrive(raw).value
    {
      var args := OldDriveArgs(raw);
      if args.Err? {
        return null, Some(args.error);
      }
      var a := args.value;
      d := new OldDrive(a.0, a.1, a.2, a.3, a.4);
      err := d.PostInit();
    }

    /** The comprehension of `_get_drive_details`: a new drive object per raw drive, in
        order, stopping at the first drive that raises. */
    static method NewDrives(raws: seq<RawDrive>) returns (built: seq<OldDrive>, err: Option<FeedError>)
      ensures err.Some? ==> exists i :: 0 <= i < |raws| && OldRawToDrive(raws[i]) == Err(err.value) &&
                                         forall j :: 0 <= j < i ==> OldRawToDrive(raws[j]).Ok?
      ensures err.None? ==> |built| == |raws| && (forall i :: 0 <= i < |built| ==> fresh(built[i])) &&
                            (forall a, b :: 0 <= a < b < |built| ==> built[a] != built[b]) &&
                            forall i :: 0 <= i < |raws| ==> OldRawToDrive(raws[i]) == Ok(built[i].Value())
    {
      built := [];
      var i := 0;
      while i < |raws|
        invariant 0 <= i <= |raws| && |built| == i
        invariant forall j :: 0 <= j < i ==> fresh(built[j])
        invariant forall j :: 0 <= j < i ==> OldRawToDrive(raws[j]) == Ok(built[j].Value())
        invariant forall a, b :: 0 <= a < b < i ==> built[a] != built[b]
      {
        var d, e := NewDrive(raws[i]);
        if e.Some? {
          return built, e;
        }
        built := built + [d];
        i := i + 1;
      }
      return built, None;
    }

    /** The comprehension of `_get_drive_details` as a whole: the drive values of the
        feed, or the error of its first drive that raises. */
    static method BuildDriveList(raws: seq<RawDrive>) returns (built: seq<OldDrive>, err: Option<FeedError>)
      ensures err.None? <==> OldBuildDrives(raws).Ok?
      ensures err.Some? ==> err.value == OldBuildDrives(raws).error
      ensures err.None? ==> (forall i :: 0 <= i < |built| ==> fresh(built[i])) &&
                            (forall a, b :: 0 <= a < b < |built| ==> built[a] != built[b]) &&
                            OldValuesOf(built) == OldBuildDrives(raws).value
    {
      built, err := NewDrives(raws);
      if err.Some? {
        ghost var i :| 0 <= i < |raws| && OldRawToDrive(raws[i]) == Err(err.value) &&
                       forall j :: 0 <= j < i ==> OldRawToDrive(raws[j]).Ok?;
        MapResultFirstError(raws, OldRawToDrive, i);
      } else {
        MapResultAll(raws, OldRawToDrive, OldValuesOf(built));
      }
    }

    /** `self.drives = _get_drive_details(game_dict)`: on an exception `drives` keeps its
        old value. */
    method GetDriveDetails(feed: RawGame) returns (err: Option<FeedError>)
      modifies this
      ensures homeScore == old(homeScore) && awayScore == old(awayScore)
      ensures err.None? <==> OldBuildDrives(feed.drives).Ok?
      ensures err.Some? ==> err.value == OldBuildDrives(feed.drives).error && drives == old(drives)
      ensures err.None? ==> Valid() && (forall i :: 0 <= i < |drives| ==> fresh(drives[i])) &&
                            Values() == OldBuildDrives(feed.drives).value
    {
      var built;
      built, err := BuildDriveList(feed.drives);
      if err.None? {
        ghost var vs := OldValuesOf(built);
        drives := built;
        assert forall i :: 0 <= i < |drives| ==> drives[i].Value() == vs[i];
      }
    }

    /** `export`: one record per drive, in order. */
    function Export(): (r: OldGameRecord)
      reads this, set d | d in drives
      requires Valid()
      ensures r.gameId == gameId && r.seasonYear == seasonYear && r.seasonType == seasonType &&
              r.gameWeek == gameWeek && r.homeTeam == homeTeam && r.awayTeam == awayTeam
      ensures |r.drives| == |drives| && forall i :: 0 <= i < |drives| ==> r.drives[i] == OldExportDrive(drives[i].Value())
      ensures OldExportedPoints(r.drives) == DrivePointsSum(Tallies())
    {
      var vs := Values();
      var rs := seq(|vs|, i requires 0 <= i < |vs| && vs[i].driveStart.Some? => OldExportDrive(vs[i]));
      OldExportedPointsSum(vs, rs);
      OldGameRecord(gameId, seasonYear, seasonType, gameWeek, homeTeam, awayTeam, rs)
    }

    /** `check_score_integrity`: the sum of all play points against the final score. */
    function CheckScoreIntegrity(): Result<bool, FeedError>
      reads this, set d | d in drives
    {
      Reconcile.CheckScoreIntegrity(Tallies(), homeScore, awayScore, OldEntryOf)
    }

    /** `self.drives[k].plays.append(play)` followed by `self.drives[k].calculate_scoring()`:
        only drive `k` changes, and only in its plays and scoring. */
    method AppendAndRescore(k: nat, u: OldPlay) returns (err: Option<FeedError>)
      requires Valid() && k < |drives|
      modifies drives[k]
      ensures Valid()
      ensures var t := old(Tallies()[k]).(plays := old(Tallies()[k]).plays + [u]);
              Tallies() == old(Tallies())[k := Rescore(t, OldEntryOf)] &&
              err == if DriveScoring(Entries(t.plays, OldEntryOf)).SumFailed? then Some(UnscorablePoints) else None
      ensures OldSameStarts(old(Values()), Values())
    {
      var d := drives[k];
      ghost var vs := Values();
      err := d.AppendPlay(u);
      assert forall j :: 0 <= j < |drives| && j != k ==> drives[j].Value() == vs[j];
      assert Values() == vs[k := d.Value()];
      OldTalliesOfUpdate(vs, k, d.Value());
    }

    /** `_remedy_incorrect_scoreline`: the feed's scoring plays missing from every drive are
        appended, one at a time, to the drive at list position `drive_id - 1`, for the
        `drive_id` of the nearest earlier play, whose scoring is then recomputed; the
        first exception stops the loop. */
    method RemedyIncorrectScoreline(feed: RawGame) returns (err: Option<FeedError>)
      requires Valid()
      modifies set d | d in drives
      ensures Valid()
      ensures OldScoringPlays(feed).Err? ==> err == Some(OldScoringPlays(feed).error) && Values() == old(Values())
      ensures OldScoringPlays(feed).Ok? ==>
                var res := Remedy(old(Tallies()), OldScoringPlays(feed).value, OldPlayIdOf, OldEntryOf);
                err == res.1 && Tallies() == res.0
      ensures OldSameStarts(old(Values()), Values())
    {
      var sp := OldScoringPlays(feed);
      if sp.Err? {
        return Some(sp.error);
      }
      var det := Detected(Tallies());
      var us := Undetected(sp.value, DetectedPlays(det));
      err := PlaceMissing(det, us);
    }

    /** One round of the loop of `_remedy_incorrect_scoreline`: find the target drive of
        a missing play, append the play to it and recompute its scoring. */
    method PlaceOneMissing(det: seq<(int, OldPlay)>, u: OldPlay) returns (err: Option<FeedError>)
      requires Valid()
      modifies set d | d in drives
      ensures Valid()
      ensures var res := PlaceOne(old(Tallies()), det, u, OldPlayIdOf, OldEntryOf);
              err == res.1 && Tallies() == res.0
      ensures OldSameStarts(old(Values()), Values())
    {
      ghost var before := Tallies();
      var target := TargetIndex(det, OldPlayIdOf(u), |drives|, OldPlayIdOf);
      if target.Err? {
        return Some(target.error);
      }
      err := AppendAndRescore(target.value, u);
      PlaceOneIs(before, det, u, OldPlayIdOf, OldEntryOf, Tallies());
    }

    /** The loop of `_remedy_incorrect_scoreline` over the missing plays, with the detected
        plays computed once before it. */
    method PlaceMissing(det: seq<(int, OldPlay)>, us: seq<OldPlay>) returns (err: Option<FeedError>)
      requires Valid()
      modifies set d | d in drives
      ensures Valid()
      ensures var res := PlaceAll(old(Tallies()), det, us, OldPlayIdOf, OldEntryOf);
              err == res.1 && Tallies() == res.0
      ensures OldSameStarts(old(Values()), Values())
    {
      ghost var ts0 := Tallies();
      var i := 0;
      while i < |us|
        invariant 0 <= i <= |us|
        invariant Valid()
        invariant PlaceAll(ts0, det, us[..i], OldPlayIdOf, OldEntryOf).1.None?
        invariant Tallies() == PlaceAll(ts0, det, us[..i], OldPlayIdOf, OldEntryOf).0
        invariant OldSameStarts(old(Values()), Values())
      {
        PlaceAllSnoc(ts0, det, us, i, OldPlayIdOf, OldEntryOf);
        err := PlaceOneMissing(det, us[i]);
        if err.Some? {
          PlaceAllStops(ts0, det, us, i + 1, OldPlayIdOf, OldEntryOf);
          return;
        }
        i := i + 1;
      }
      assert us[..i] == us;
      return None;
    }

    /** `get_game_details` from the parsed feed on: scores, drives, the integrity check,
        and, when it fails, reconciliation followed by a second check whose result is
        printed; then the duplicate scan. The drives end as `CheckAndRemedy` leaves the
        built drives, their teams, times and starts untouched. When the printed result is
        true, or no second check was needed, the drives' exported points add up to the
        final score. */
    method GetGameDetails(feed: RawGame) returns (r: Result<OldGameReport, FeedError>)
      modifies this
      ensures homeScore == feed.homeScore && awayScore == feed.awayScore
      ensures OldBuildDrives(feed.drives).Err? ==> r == Err(OldBuildDrives(feed.drives).error) && drives == old(drives)
      ensures OldBuildDrives(feed.drives).Ok? ==>
                var vs0 := OldBuildDrives(feed.drives).value;
                var out := CheckAndRemedy(OldTalliesOf(vs0), OldScoringPlays(feed), homeScore, awayScore, OldPlayIdOf, OldEntryOf);
                Valid() && Tallies() == out.0 && OldSameStarts(vs0, Values()) &&
                (r.Err? <==> out.1.Err?) && (r.Err? ==> r.error == out.1.error) &&
                (r.Ok? ==> r.value.printedCheck == if out.1.value.0 then None else Some(out.1.value.1))
      ensures r.Ok? ==> Valid() && AllConsistent(Tallies(), OldEntryOf)
      ensures r.Ok? && r.value.printedCheck.Some? ==> CheckScoreIntegrity() == Ok(r.value.printedCheck.value)
      ensures r.Ok? && r.value.printedCheck.None? ==> CheckScoreIntegrity() == Ok(true) &&
                                                      Values() == OldBuildDrives(feed.drives).value
      ensures r.Ok? ==> r.value.duplicatePlayIds == DuplicateFlags(Tallies(), OldPlayIdOf)
      ensures r.Ok? && r.value.printedCheck != Some(false) ==>
                OldExportedPoints(Export().drives) == homeScore + awayScore
    {
      homeScore := feed.homeScore;
      awayScore := feed.awayScore;
      var e := GetDriveDetails(feed);
      if e.Some? {
        return Err(e.value);
      }
      ghost var ts0 := Tallies();
      var ok :- CheckScoreIntegrity();
      var printed := None;
      if !ok {
        e := RemedyIncorrectScoreline(feed);
        if e.Some? {
          return Err(e.value);
        }
        ok :- CheckScoreIntegrity();
        printed := Some(ok);
      }
      OldBuiltDrivesConsistent(feed.drives);
      CheckAndRemedyConsistent(ts0, OldScoringPlays(feed), homeScore, awayScore, OldPlayIdOf, OldEntryOf);
      return Ok(OldGameReport(printed, DuplicateFlags(Tallies(), OldPlayIdOf)));
    }
  }
}
