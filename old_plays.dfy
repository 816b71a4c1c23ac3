/** Plays in the older engine (nfl_data_parser/drive_parser.py): its `Yardline` record,
    which keeps the feed's side and yard number beside the signed distance, its `Play`,
    which has neither a clock nor a real-play flag, and `_process_play`. */
module OldPlays {
  import opened Base
  import opened Feed
  import opened Scoring

  /** `Yardline(side, side_pos, yard_int)`: the side and yard number as the feed gives
      them and the signed distance from midfield. All three are absent for the unknown
      start of a drive. */
  datatype OldYardline = OldYardline(side: Option<string>, sidePos: Option<int>, yardInt: Option<int>)

  /** `Yardline(None, None, None)`. */
  const UnknownStart: OldYardline := OldYardline(None, None, None)

  /** `Play`, compared field by field. `yardline` is absent when the feed gives no side. */
  datatype OldPlay = OldPlay(
    playId: int,
    posTeam: Option<string>,
    description: Option<string>,
    yardline: Option<OldYardline>,
    playType: Option<string>,
    scoringType: Option<string>,
    scoringTeam: Option<string>,
    points: Option<int>)

  /** `play.get('@yardlineSide')` is truthy: present and not empty. */
  predicate HasSide(raw: RawPlay) {
    raw.yardlineSide.Some? && raw.yardlineSide.value != ""
  }

  /** The position argument of `_process_play`: none without a side; with one, the team
      and the yard number are both required, the team read first. */
  function OldPlayYardline(raw: RawPlay): (r: Result<Option<OldYardline>, FeedError>)
    ensures r.Err? <==> HasSide(raw) && (raw.teamId.None? || raw.yardlineNumber.None?)
    ensures r.Err? ==> r.error == if raw.teamId.None? then MissingTeamId else MissingYardlineNumber
    ensures r.Ok? ==> (r.value.None? <==> !HasSide(raw))
  {
    if !HasSide(raw) then Ok(None)
    else if raw.teamId.None? then Err(MissingTeamId)
    else if raw.yardlineNumber.None? then Err(MissingYardlineNumber)
    else Ok(Some(OldYardline(raw.yardlineSide, raw.yardlineNumber,
                             Some(SignedYards(raw.teamId.value, raw.yardlineSide.value, raw.yardlineNumber.value)))))
  }

  /** `_process_play`: the play id is converted first, so a missing id wins over a
      position error. A fresh play has points 0. */
  function ProcessPlay(raw: RawPlay): (r: Result<OldPlay, FeedError>)
    ensures r.Err? <==> raw.playId.None? || OldPlayYardline(raw).Err?
    ensures r.Err? ==> r.error == if raw.playId.None? then MissingPlayId else OldPlayYardline(raw).error
    ensures r.Ok? ==> r.value.playId == raw.playId.value && r.value.posTeam == raw.teamId &&
                      r.value.description == raw.playDescription && r.value.playType == raw.playType &&
                      r.value.scoringType == raw.scoringType && r.value.scoringTeam == raw.scoringTeamId &&
                      r.value.points == Some(0) && r.value.yardline == OldPlayYardline(raw).value
  {
    if raw.playId.None? then Err(MissingPlayId)
    else
      var yardline :- OldPlayYardline(raw);
      Ok(OldPlay(raw.playId.value, raw.teamId, raw.playDescription, yardline, raw.playType,
                 raw.scoringType, raw.scoringTeamId, Some(0)))
  }

  /** The position of a play with a side: the side and yard number are kept as given, and
      the signed distance is negative, or zero at 50, exactly when the side is the team's
      own. There is no special case for yard number 50 and none for administrative plays. */
  lemma OldPlayPosition(raw: RawPlay)
    requires ProcessPlay(raw).Ok? && HasSide(raw)
    requires 0 <= raw.yardlineNumber.value <= 50
    ensures var y := ProcessPlay(raw).value.yardline;
            y.Some? && y.value.side == raw.yardlineSide && y.value.sidePos == raw.yardlineNumber &&
            y.value.yardInt.Some? && -50 <= y.value.yardInt.value <= 50 &&
            (y.value.yardInt.value <= 0 <==> raw.teamId == raw.yardlineSide || raw.yardlineNumber == Some(50))
  {
  }

  /** `Play.calculate_points` on a play value. */
  function OldWithPoints(p: OldPlay): (r: OldPlay)
    ensures r == p.(points := r.points)
    ensures r.points == CalculatePoints(p.scoringType, p.points)
  {
    p.(points := CalculatePoints(p.scoringType, p.points))
  }

  /** `[x.calculate_points() for x in plays]` over a list of plays. */
  function AllOldWithPoints(ps: seq<OldPlay>): (r: seq<OldPlay>)
    ensures |r| == |ps| && forall i :: 0 <= i < |ps| ==> r[i] == OldWithPoints(ps[i])
  {
    seq(|ps|, i requires 0 <= i < |ps| => OldWithPoints(ps[i]))
  }

  /** A freshly built play ends with points from the table when it has a category the table
      lists, 0 when it has none, and no points when its category is unknown. */
  lemma OldBuiltPlayPoints(raw: RawPlay)
    requires ProcessPlay(raw).Ok?
    ensures var p := OldWithPoints(ProcessPlay(raw).value);
            (raw.scoringType.None? ==> p.points == Some(0)) &&
            (raw.scoringType.Some? && raw.scoringType.value in ScoringDict ==> p.points == Some(ScoringDict[raw.scoringType.value])) &&
            (raw.scoringType.Some? && raw.scoringType.value !in ScoringDict ==> p.points.None?)
  {
  }

  /** The play id, the key reconciliation orders plays by. */
  function OldPlayIdOf(p: OldPlay): int {
    p.playId
  }

  /** What drive scoring reads of a play. */
  function OldEntryOf(p: OldPlay): ScoreEntry {
    ScoreEntry(p.points, p.scoringTeam)
  }
}
