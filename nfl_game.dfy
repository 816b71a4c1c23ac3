/** A game in the newer engine (nfl_types.py `Game`): building its drives from the feed,
    checking them against the final score, reconciling scoring plays the drives miss, the
    duplicate-id scan, and the drive-level export record. */
module NflGame {
  import opened Base
  import opened Feed
  import opened Scoring
  import opened Yardlines
  import opened NflPlays
  import opened Reconcile
  import opened NflDrives

  /** `_get_drive_details` before the team corrections: every drive of the feed, built in
      order, the first raising drive deciding the error. */
  function BuildDrives(raws: seq<RawDrive>): Result<seq<DriveValue>, FeedError> {
    MapResult(raws, RawToDrive)
  }

  /** `correct_drive_team` over every drive. */
  function CorrectAll(vs: seq<DriveValue>, year: int): (r: seq<DriveValue>)
    ensures |r| == |vs| && forall i :: 0 <= i < |vs| ==> r[i] == CorrectValue(vs[i], year)
  {
    seq(|vs|, i requires 0 <= i < |vs| => CorrectValue(vs[i], year))
  }

  /** `full_dict['scoringPlays']['play']`, each one built and given its points. */
  function ScoringPlays(feed: RawGame): (r: Result<seq<Play>, FeedError>)
    ensures feed.scoringPlays.None? ==> r == Err(MissingScoringPlays)
    ensures r.Err? <==> feed.scoringPlays.None? || MapResult(feed.scoringPlays.value, ProcessPlayDict).Err?
    ensures r.Err? && feed.scoringPlays.Some? ==> r.error == MapResult(feed.scoringPlays.value, ProcessPlayDict).error
    ensures r.Ok? ==> feed.scoringPlays.Some? && |r.value| == |feed.scoringPlays.value| &&
                      forall i :: 0 <= i < |r.value| ==>
                        ProcessPlayDict(feed.scoringPlays.value[i]).Ok? &&
                        r.value[i] == WithPoints(ProcessPlayDict(feed.scoringPlays.value[i]).value)
  {
    if feed.scoringPlays.None? then Err(MissingScoringPlays)
    else
      var ps :- MapResult(feed.scoringPlays.value, ProcessPlayDict);
      Ok(AllWithPoints(ps))
  }

  /** The values of a list of drive objects. */
  function ValuesOf(ds: seq<Drive>): (r: seq<DriveValue>)
    reads set d | d in ds
    ensures |r| == |ds| && forall i :: 0 <= i < |ds| ==> r[i] == ds[i].Value()
  {
    seq(|ds|, i requires 0 <= i < |ds| reads set d | d in ds => ds[i].Value())
  }

  /** One line of the export: a drive's id, team, starting `yard_int`, starting clock,
      number of real plays, scoring team and points. */
  datatype DriveRecord = DriveRecord(
    driveId: int,
    drivePosTeam: Option<string>,
    driveStart: Option<int>,
    driveStartTime: Clock,
    driveNumPlays: nat,
    driveScoringTeam: Option<string>,
    drivePoints: Option<int>)

  datatype GameRecord = GameRecord(
    gameId: string,
    seasonYear: int,
    seasonType: string,
    gameWeek: int,
    homeTeam: string,
    awayTeam: string,
    drives: seq<DriveRecord>)

  /** The warnings `get_game_details` logs: the scoreline still wrong after reconciliation,
      and, per drive, duplicate play ids. */
  datatype GameWarnings = GameWarnings(incorrectScoreline: bool, duplicatePlayIds: seq<bool>)

  /** The exported points of all drives, an absent value counting as none. */
  function ExportedPoints(rs: seq<DriveRecord>): int {
    if rs == [] then 0 else PointsOrZero(rs[0].drivePoints) + ExportedPoints(rs[1..])
  }

  /** `export`'s record of one drive that `__post_init__` has completed. */
  function ExportDrive(v: DriveValue): (r: DriveRecord)
    requires v.driveStart.Some? && v.startTime.Some?
    ensures r.driveId == v.driveId && r.drivePosTeam == v.posTeam && r.driveStart == v.driveStart.value.yardInt &&
            r.driveStartTime == v.startTime.value && r.drivePoints == v.points && r.driveScoringTeam == v.scoringTeam
    ensures r.driveNumPlays == CountRealPlays(v.plays) && r.driveNumPlays <= |v.plays|
    ensures r.driveNumPlays == |v.plays| <==> forall i :: 0 <= i < |v.plays| ==> v.plays[i].realPlay
  {
    DriveRecord(v.driveId, v.posTeam, v.driveStart.value.yardInt, v.startTime.value,
                CountRealPlays(v.plays), v.scoringTeam, v.points)
  }

  /** The exported points are the drives' recorded points. */
  lemma {:induction false} ExportedPointsSum(vs: seq<DriveValue>, rs: seq<DriveRecord>)
    requires |rs| == |vs| && forall i :: 0 <= i < |vs| ==> vs[i].driveStart.Some? && vs[i].startTime.Some? && rs[i] == ExportDrive(vs[i])
    ensures ExportedPoints(rs) == DrivePointsSum(TalliesOf(vs))
  {
    if vs != [] {
      assert TalliesOf(vs)[1..] == TalliesOf(vs[1..]);
      ExportedPointsSum(vs[1..], rs[1..]);
    }
  }

  /** Every drive the feed yields has points that agree with its plays, and the team
      corrections do not touch either. */
  lemma BuiltDrivesConsistent(raws: seq<RawDrive>, year: int)
    requires BuildDrives(raws).Ok?
    ensures AllConsistent(TalliesOf(CorrectAll(BuildDrives(raws).value, year)), EntryOf)
  {
    var vs := BuildDrives(raws).value;
    forall j | 0 <= j < |vs|
      ensures Consistent(TallyOf(CorrectValue(vs[j], year)), EntryOf)
    {
      var args := DriveArgs(raws[j]).value;
      BuiltDriveConsistent(args.0, args.1, args.2);
    }
  }

  /** Reconciliation leaves each drive's team and start as they were. */
  predicate SameStarts(vs: seq<DriveValue>, ws: seq<DriveValue>) {
    |vs| == |ws| &&
    forall j :: 0 <= j < |vs| ==>
      ws[j].posTeam == vs[j].posTeam && ws[j].driveStart == vs[j].driveStart && ws[j].startTime == vs[j].startTime
  }

  /** `Game`. */
  class Game {
    const seasonYear: int
    const seasonType: string
    const gameWeek: int
    const homeTeam: string
    const awayTeam: string
    const gameId: string
    var drives: seq<Drive>
    var homeScore: int
    var awayScore: int

    /** The drives are distinct objects, each past its `__post_init__`. */
    ghost predicate Valid()
      reads this, set d | d in drives
    {
      (forall i, j :: 0 <= i < j < |drives| ==> drives[i] != drives[j]) &&
      forall i :: 0 <= i < |drives| ==> drives[i].driveStart.Some? && drives[i].startTime.Some?
    }

    /** The drives as values, in order. */
    function Values(): seq<DriveValue>
      reads this, set d | d in drives
    {
      ValuesOf(drives)
    }

    /** What reconciliation sees of each drive. */
    function Tallies(): seq<Tally<Play>>
      reads this, set d | d in drives
    {
      TalliesOf(Values())
    }

    constructor (seasonYear: int, seasonType: string, gameWeek: int, homeTeam: string, awayTeam: string, gameId: string)
      ensures this.seasonYear == seasonYear && this.seasonType == seasonType && this.gameWeek == gameWeek
      ensures this.homeTeam == homeTeam && this.awayTeam == awayTeam && this.gameId == gameId
      ensures drives == [] && homeScore == 0 && awayScore == 0
    {
      this.seasonYear := seasonYear;
      this.seasonType := seasonType;
      this.gameWeek := gameWeek;
      this.homeTeam := homeTeam;
      this.awayTeam := awayTeam;
      this.gameId := gameId;
      drives := [];
      homeScore := 0;
      awayScore := 0;
    }

    /** One drive object of the comprehension of `_get_drive_details`: its arguments
        read from the raw drive, then `__init__` and `__post_init__`. */
    static method NewDrive(raw: RawDrive) returns (d: Drive?, err: Option<FeedError>)
      ensures err.None? <==> RawToDrive(raw).Ok?
      ensures err.Some? ==> err.value == RawToDrive(raw).error
      ensures err.None? ==> d != null && fresh(d) && d.Value() == RawToDrive(raw).value
    {
      var args := DriveArgs(raw);
      if args.Err? {
        return null, Some(args.error);
      }
      var a := args.value;
      d := new Drive(a.0, a.1, a.2);
      err := d.PostInit();
    }

    /** The comprehension of `_get_drive_details`: a new drive object per raw drive, in
        order, stopping at the first drive that raises. */
    static method NewDrives(raws: seq<RawDrive>) returns (built: seq<Drive>, err: Option<FeedError>)
      ensures err.Some? ==> exists i :: 0 <= i < |raws| && RawToDrive(raws[i]) == Err(err.value) &&
                                         forall j :: 0 <= j < i ==> RawToDrive(raws[j]).Ok?
      ensures err.None? ==> |built| == |raws| && (forall i :: 0 <= i < |built| ==> fresh(built[i])) &&
                            (forall a, b :: 0 <= a < b < |built| ==> built[a] != built[b]) &&
                            forall i :: 0 <= i < |raws| ==> RawToDrive(raws[i]) == Ok(built[i].Value())
    {
      built := [];
      var i := 0;
      while i < |raws|
        invariant 0 <= i <= |raws| && |built| == i
        invariant forall j :: 0 <= j < i ==> fresh(built[j])
        invariant forall j :: 0 <= j < i ==> RawToDrive(raws[j]) == Ok(built[j].Value())
        invariant forall a, b :: 0 <= a < b < i ==> built[a] != built[b]
      {
        var d, e := NewDrive(raws[i]);
        if e.Some? {
          return built, e;
        }
        built := built + [d];
        i := i + 1;
      }
      return built, None;
    }

    /** The comprehension of `_get_drive_details` as a whole: the drive values of the
        feed, or the error of its first drive that raises. */
    static method BuildDriveList(raws: seq<RawDrive>) returns (built: seq<Drive>, err: Option<FeedError>)
      ensures err.None? <==> BuildDrives(raws).Ok?
      ensures err.Some? ==> err.value == BuildDrives(raws).error
      ensures err.None? ==> (forall i :: 0 <= i < |built| ==> fresh(built[i])) &&
                            (forall a, b :: 0 <= a < b < |built| ==> built[a] != built[b]) &&
                            ValuesOf(built) == BuildDrives(raws).value
    {
      built, err := NewDrives(raws);
      if err.Some? {
        ghost var i :| 0 <= i < |raws| && RawToDrive(raws[i]) == Err(err.value) &&
                       forall j :: 0 <= j < i ==> RawToDrive(raws[j]).Ok?;
        MapResultFirstError(raws, RawToDrive, i);
      } else {
        MapResultAll(raws, RawToDrive, ValuesOf(built));
      }
    }

    /** The loop of `_get_drive_details` that corrects every drive's team names. */
    static method CorrectTeams(ds: seq<Drive>, seasonYear: int)
      modifies set d | d in ds
      requires forall a, b :: 0 <= a < b < |ds| ==> ds[a] != ds[b]
      ensures ValuesOf(ds) == CorrectAll(old(ValuesOf(ds)), seasonYear)
    {
      ghost var vs := ValuesOf(ds);
      var k := 0;
      while k < |ds|
        invariant 0 <= k <= |ds|
        invariant forall j :: 0 <= j < |ds| ==> ds[j].Value() == if j < k then CorrectValue(vs[j], seasonYear) else vs[j]
      {
        ds[k].CorrectDriveTeam(seasonYear);
        k := k + 1;
      }
    }

    /** The drives `_get_drive_details` builds: every drive of the feed (stopping at the
        first that raises), then the team names corrected for the season. */
    static method BuildAndCorrect(raws: seq<RawDrive>, seasonYear: int) returns (built: seq<Drive>, err: Option<FeedError>)
      ensures err.None? <==> BuildDrives(raws).Ok?
      ensures err.Some? ==> err.value == BuildDrives(raws).error
      ensures err.None? ==> (forall i :: 0 <= i < |built| ==> fresh(built[i])) &&
                            (forall a, b :: 0 <= a < b < |built| ==> built[a] != built[b]) &&
                            (forall i :: 0 <= i < |built| ==> built[i].driveStart.Some? && built[i].startTime.Some?) &&
                            ValuesOf(built) == CorrectAll(BuildDrives(raws).value, seasonYear)
    {
      built, err := BuildDriveList(raws);
      if err.None? {
        ghost var vs0 := ValuesOf(built);
        assert forall i :: 0 <= i < |vs0| ==> RawToDrive(raws[i]) == Ok(vs0[i]);
        CorrectTeams(built, seasonYear);
        assert forall i :: 0 <= i < |built| ==> built[i].Value() == CorrectValue(vs0[i], seasonYear);
      }
    }

    /** `_get_drive_details`: builds every drive (raising on the first drive that raises,
        leaving `drives` as it was), then corrects the team names for the season. */
    method GetDriveDetails(feed: RawGame) returns (err: Option<FeedError>)
      modifies this
      ensures homeScore == old(homeScore) && awayScore == old(awayScore)
      ensures err.None? <==> BuildDrives(feed.drives).Ok?
      ensures err.Some? ==> err.value == BuildDrives(feed.drives).error && drives == old(drives)
      ensures err.None? ==> Valid() && (forall i :: 0 <= i < |drives| ==> fresh(drives[i])) &&
                            Values() == CorrectAll(BuildDrives(feed.drives).value, seasonYear)
    {
      var built;
      built, err := BuildAndCorrect(feed.drives, seasonYear);
      if err.None? {
        ghost var vs := ValuesOf(built);
        drives := built;
        assert forall i :: 0 <= i < |drives| ==> drives[i].Value() == vs[i];
      }
    }

    /** `export`: one record per drive, in order. */
    function Export(): (r: GameRecord)
      reads this, set d | d in drives
      requires Valid()
      ensures r.gameId == gameId && r.seasonYear == seasonYear && r.seasonType == seasonType &&
              r.gameWeek == gameWeek && r.homeTeam == homeTeam && r.awayTeam == awayTeam
      ensures |r.drives| == |drives| && forall i :: 0 <= i < |drives| ==> r.drives[i] == ExportDrive(drives[i].Value())
      ensures ExportedPoints(r.drives) == DrivePointsSum(Tallies())
    {
      var vs := Values();
      var rs := seq(|vs|, i requires 0 <= i < |vs| && vs[i].driveStart.Some? && vs[i].startTime.Some? => ExportDrive(vs[i]));
      ExportedPointsSum(vs, rs);
      GameRecord(gameId, seasonYear, seasonType, gameWeek, homeTeam, awayTeam, rs)
    }

    /** `check_score_integrity`: the sum of all play points against the final score. */
    function CheckScoreIntegrity(): Result<bool, FeedError>
      reads this, set d | d in drives
    {
      Reconcile.CheckScoreIntegrity(Tallies(), homeScore, awayScore, EntryOf)
    }

    /** `self.drives[k].plays.append(play)` followed by `self.drives[k].calculate_scoring()`:
        only drive `k` changes, and only in its plays and scoring. */
    method AppendAndRescore(k: nat, u: Play) returns (err: Option<FeedError>)
      requires Valid() && k < |drives|
      modifies drives[k]
      ensures Valid()
      ensures var t := old(Tallies()[k]).(plays := old(Tallies()[k]).plays + [u]);
              Tallies() == old(Tallies())[k := Rescore(t, EntryOf)] &&
              err == if DriveScoring(Entries(t.plays, EntryOf)).SumFailed? then Some(UnscorablePoints) else None
      ensures SameStarts(old(Values()), Values())
    {
      var d := drives[k];
      ghost var vs := Values();
      err := d.AppendPlay(u);
      assert forall j :: 0 <= j < |drives| && j != k ==> drives[j].Value() == vs[j];
      assert Values() == vs[k := d.Value()];
      TalliesOfUpdate(vs, k, d.Value());
    }

    /** `_remedy_incorrect_scoreline`: the feed's scoring plays missing from every drive are
        appended, one at a time, to the drive at list position `drive_id - 1`, for the
        `drive_id` of the nearest earlier play, whose scoring is then recomputed; the
        first exception stops the loop. */
    method RemedyIncorrectScoreline(feed: RawGame) returns (err: Option<FeedError>)
      requires Valid()
      modifies set d | d in drives
      ensures Valid()
      ensures ScoringPlays(feed).Err? ==> err == Some(ScoringPlays(feed).error) && Values() == old(Values())
      ensures ScoringPlays(feed).Ok? ==>
                var res := Remedy(old(Tallies()), ScoringPlays(feed).value, PlayIdOf, EntryOf);
                err == res.1 && Tallies() == res.0
      ensures SameStarts(old(Values()), Values())
    {
      var sp := ScoringPlays(feed);
      if sp.Err? {
        return Some(sp.error);
      }
      var det := Detected(Tallies());
      var us := Undetected(sp.value, DetectedPlays(det));
      err := PlaceMissing(det, us);
    }

    /** One round of the loop of `_remedy_incorrect_scoreline`: find the target drive of
        a missing play, append the play to it and recompute its scoring. */
    method PlaceOneMissing(det: seq<(int, Play)>, u: Play) returns (err: Option<FeedError>)
      requires Valid()
      modifies set d | d in drives
      ensures Valid()
      ensures var res := PlaceOne(old(Tallies()), det, u, PlayIdOf, EntryOf);
              err == res.1 && Tallies() == res.0
      ensures SameStarts(old(Values()), Values())
    {
      ghost var before := Tallies();
      var target := TargetIndex(det, PlayIdOf(u), |drives|, PlayIdOf);
      if target.Err? {
        return Some(target.error);
      }
      err := AppendAndRescore(target.value, u);
      PlaceOneIs(before, det, u, PlayIdOf, EntryOf, Tallies());
    }

    /** The loop of `_remedy_incorrect_scoreline` over the missing plays, with the detected
        plays computed once before it. */
    method PlaceMissing(det: seq<(int, Play)>, us: seq<Play>) returns (err: Option<FeedError>)
      requires Valid()
      modifies set d | d in drives
      ensures Valid()
      ensures var res := PlaceAll(old(Tallies()), det, us, PlayIdOf, EntryOf);
              err == res.1 && Tallies() == res.0
      ensures SameStarts(old(Values()), Values())
    {
      ghost var ts0 := Tallies();
      var i := 0;
      while i < |us|
        invariant 0 <= i <= |us|
        invariant Valid()
        invariant PlaceAll(ts0, det, us[..i], PlayIdOf, EntryOf).1.None?
        invariant Tallies() == PlaceAll(ts0, det, us[..i], PlayIdOf, EntryOf).0
        invariant SameStarts(old(Values()), Values())
      {
        PlaceAllSnoc(ts0, det, us, i, PlayIdOf, EntryOf);
        err := PlaceOneMissing(det, us[i]);
        if err.Some? {
          PlaceAllStops(ts0, det, us, i + 1, PlayIdOf, EntryOf);
          return;
        }
        i := i + 1;
      }
      assert us[..i] == us;
      return None;
    }

    /** `get_game_details` from the parsed feed on: scores, drives, the integrity check,
        reconciliation and a second check when the first fails, then the duplicate scan.
        The drives end as `CheckAndRemedy` leaves the built and corrected drives, their
        teams and starts untouched; the warning is due exactly when the last check made
        fails. When it is not due, the drives' exported points add up to the final score. */
    method GetGameDetails(feed: RawGame) returns (r: Result<GameWarnings, FeedError>)
      modifies this
      ensures homeScore == feed.homeScore && awayScore == feed.awayScore
      ensures BuildDrives(feed.drives).Err? ==> r == Err(BuildDrives(feed.drives).error) && drives == old(drives)
      ensures BuildDrives(feed.drives).Ok? ==>
                var vs0 := CorrectAll(BuildDrives(feed.drives).value, seasonYear);
                var out := CheckAndRemedy(TalliesOf(vs0), ScoringPlays(feed), homeScore, awayScore, PlayIdOf, EntryOf);
                Valid() && Tallies() == out.0 && SameStarts(vs0, Values()) &&
                (out.1.Ok? && out.1.value.0 ==> Values() == vs0) &&
                (r.Err? <==> out.1.Err?) && (r.Err? ==> r.error == out.1.error) &&
                (r.Ok? ==> r.value.incorrectScoreline == !out.1.value.1)
      ensures r.Ok? ==> Valid() && AllConsistent(Tallies(), EntryOf)
      ensures r.Ok? ==> (r.value.incorrectScoreline <==> CheckScoreIntegrity() == Ok(false))
      ensures r.Ok? ==> r.value.duplicatePlayIds == DuplicateFlags(Tallies(), PlayIdOf)
      ensures r.Ok? && !r.value.incorrectScoreline ==>
                ExportedPoints(Export().drives) == homeScore + awayScore
    {
      homeScore := feed.homeScore;
      awayScore := feed.awayScore;
      var e := GetDriveDetails(feed);
      if e.Some? {
        return Err(e.value);
      }
      ghost var vs0 := Values();
      ghost var ts0 := Tallies();
      var ok :- CheckScoreIntegrity();
      if !ok {
        e := RemedyIncorrectScoreline(feed);
        if e.Some? {
          return Err(e.value);
        }
        ok :- CheckScoreIntegrity();
      }
      BuiltDrivesConsistent(feed.drives, seasonYear);
      CheckAndRemedyConsistent(ts0, ScoringPlays(feed), homeScore, awayScore, PlayIdOf, EntryOf);
      return Ok(GameWarnings(!ok, DuplicateFlags(Tallies(), PlayIdOf)));
    }
  }
}
