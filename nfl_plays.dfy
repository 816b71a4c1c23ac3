/** Plays in the newer engine (nfl_types.py): the `Clock` and `Play` records, the
    administrative play types, and `_process_play_dict`, which builds a play from one raw
    feed record. */
module NflPlays {
  import opened Base
  import opened Feed
  import opened Scoring
  import opened Yardlines

  /** `Clock`: the quarter and the time left in it, as the feed gives them. */
  datatype Clock = Clock(quarter: Option<string>, quarterClock: Option<string>)

  /** `Play`. Compared field by field, as a Python dataclass is. `points` is 0 when the
      play is built and absent once `calculate_points` has looked up a category the table
      does not list. */
  datatype Play = Play(
    playId: int,
    posTeam: Option<string>,
    description: Option<string>,
    yardline: Yardline,
    playTime: Clock,
    playType: Option<string>,
    realPlay: bool,
    scoringType: Option<string>,
    scoringTeam: Option<string>,
    points: Option<int>)

  /** `__fake_plays__`: play types that are not plays on the field. */
  const FakePlays: seq<string> := ["TIMEOUT", "END_QUARTER", "END_HALF", "END_GAME", "COMMENT"]

  /** `play_type in __fake_plays__`; an absent type is in no list. */
  predicate IsFake(playType: Option<string>) {
    playType.Some? && playType.value in FakePlays
  }

  /** The first step of `_process_play_dict`: the play's position. Administrative plays
      get an unknown position, yard number 50 is midfield whatever the side, a present side
      needs the team and the yard number, and no side gives an unknown position. */
  function PlayYardline(raw: RawPlay): (r: Result<Yardline, FeedError>)
    ensures r.Err? <==> !IsFake(raw.playType) && raw.yardlineNumber != Some(50) && raw.yardlineSide.Some? &&
                        (raw.teamId.None? || raw.yardlineNumber.None?)
    ensures r.Err? ==> r.error == (if raw.teamId.None? then MissingTeamId else MissingYardlineNumber)
    ensures IsFake(raw.playType) ==> r == Ok(Unknown)
    ensures !IsFake(raw.playType) && raw.yardlineNumber == Some(50) ==> r == Ok(MakeYardline(Some(0)))
    ensures !IsFake(raw.playType) && raw.yardlineNumber != Some(50) && raw.yardlineSide.None? ==> r == Ok(Unknown)
    ensures r.Ok? && !IsFake(raw.playType) && raw.yardlineNumber != Some(50) && raw.yardlineSide.Some? ==>
              r.value.yardInt == Some(SignedYards(raw.teamId.value, raw.yardlineSide.value, raw.yardlineNumber.value))
  {
    if IsFake(raw.playType) then Ok(MakeYardline(None))
    else if raw.yardlineNumber == Some(50) then Ok(MakeYardline(Some(0)))
    else if raw.yardlineSide.Some? then
      if raw.teamId.None? then Err(MissingTeamId)
      else if raw.yardlineNumber.None? then Err(MissingYardlineNumber)
      else Ok(MakeYardline(Some(SignedYards(raw.teamId.value, raw.yardlineSide.value, raw.yardlineNumber.value))))
    else Ok(MakeYardline(None))
  }

  /** `_process_play_dict`: the position is computed before the play id is read, so a
      position error wins over a missing id. A fresh play has points 0 and is real exactly
      when its type is not administrative. */
  function ProcessPlayDict(raw: RawPlay): (r: Result<Play, FeedError>)
    ensures r.Err? <==> PlayYardline(raw).Err? || raw.playId.None?
    ensures r.Err? ==> r.error == if PlayYardline(raw).Err? then PlayYardline(raw).error else MissingPlayId
    ensures r.Ok? ==> r.value.playId == raw.playId.value && r.value.posTeam == raw.teamId &&
                      r.value.description == raw.playDescription && r.value.yardline == PlayYardline(raw).value &&
                      r.value.playType == raw.playType && r.value.scoringType == raw.scoringType &&
                      r.value.scoringTeam == raw.scoringTeamId && r.value.playTime == Clock(raw.quarter, raw.time)
    ensures r.Ok? ==> r.value.points == Some(0) && (r.value.realPlay <==> !IsFake(raw.playType))
  {
    var yardline :- PlayYardline(raw);
    if raw.playId.None? then Err(MissingPlayId)
    else Ok(Play(raw.playId.value, raw.teamId, raw.playDescription, yardline,
                 Clock(raw.quarter, raw.time), raw.playType, !IsFake(raw.playType),
                 raw.scoringType, raw.scoringTeamId, Some(0)))
  }

  /** Where a built play sits: for an ordinary play with a side and a yard number below
      50, the distance from that side's goal line is the yard number itself, and the side
      is the team's own exactly when the feed names the team's own side. */
  lemma PlayPositionRoundTrip(raw: RawPlay)
    requires raw.playId.Some? && raw.teamId.Some? && raw.yardlineSide.Some? && raw.yardlineNumber.Some?
    requires !IsFake(raw.playType) && 0 <= raw.yardlineNumber.value < 50
    ensures ProcessPlayDict(raw).Ok?
    ensures var y := ProcessPlayDict(raw).value.yardline;
            y.sidePos == raw.yardlineNumber && (y.side == Some(Own) <==> raw.teamId == raw.yardlineSide)
  {
  }

  /** Yard number 50 is midfield for an ordinary play; an administrative play has an
      unknown position whatever the feed says, and so has an ordinary play without a side. */
  lemma SpecialPositions(raw: RawPlay)
    requires ProcessPlayDict(raw).Ok?
    ensures !IsFake(raw.playType) && raw.yardlineNumber == Some(50) ==> ProcessPlayDict(raw).value.yardline.yardInt == Some(0)
    ensures IsFake(raw.playType) ==> ProcessPlayDict(raw).value.yardline == Unknown
    ensures !IsFake(raw.playType) && raw.yardlineNumber != Some(50) && raw.yardlineSide.None? ==>
              ProcessPlayDict(raw).value.yardline == Unknown
  {
  }

  /** `Play.calculate_points` on a play value. */
  function WithPoints(p: Play): (r: Play)
    ensures r == p.(points := r.points)
    ensures r.points == CalculatePoints(p.scoringType, p.points)
  {
    p.(points := CalculatePoints(p.scoringType, p.points))
  }

  /** `[x.calculate_points() for x in plays]` over a list of plays. */
  function AllWithPoints(ps: seq<Play>): (r: seq<Play>)
    ensures |r| == |ps| && forall i :: 0 <= i < |ps| ==> r[i] == WithPoints(ps[i])
  {
    seq(|ps|, i requires 0 <= i < |ps| => WithPoints(ps[i]))
  }

  /** A freshly built play ends with points from the table when it has a category the table
      lists, 0 when it has none, and no points when its category is unknown. */
  lemma BuiltPlayPoints(raw: RawPlay)
    requires ProcessPlayDict(raw).Ok?
    ensures var p := WithPoints(ProcessPlayDict(raw).value);
            (raw.scoringType.None? ==> p.points == Some(0)) &&
            (raw.scoringType.Some? && raw.scoringType.value in ScoringDict ==> p.points == Some(ScoringDict[raw.scoringType.value])) &&
            (raw.scoringType.Some? && raw.scoringType.value !in ScoringDict ==> p.points.None?)
  {
  }

  /** The play id, the key reconciliation orders plays by. */
  function PlayIdOf(p: Play): int {
    p.playId
  }

  /** What drive scoring reads of a play. */
  function EntryOf(p: Play): ScoreEntry {
    ScoreEntry(p.points, p.scoringTeam)
  }

  /** `sum([1 for x in drive.plays if x.real_play])`. */
  function CountRealPlays(ps: seq<Play>): (r: nat)
    ensures r <= |ps|
    ensures r == |ps| <==> forall i :: 0 <= i < |ps| ==> ps[i].realPlay
    ensures r == 0 <==> forall i :: 0 <= i < |ps| ==> !ps[i].realPlay
  {
    if ps == [] then 0
    else
      assert forall i :: 1 <= i < |ps| ==> ps[1..][i - 1] == ps[i];
      (if ps[0].realPlay then 1 else 0) + CountRealPlays(ps[1..])
  }

  /** Counting real plays of two lists counts each. */
  lemma {:induction false} CountRealPlaysAppend(a: seq<Play>, b: seq<Play>)
    ensures CountRealPlays(a + b) == CountRealPlays(a) + CountRealPlays(b)
  {
    if a == [] {
      assert a + b == b;
    } else {
      assert (a + b)[1..] == a[1..] + b;
      CountRealPlaysAppend(a[1..], b);
    }
  }
}
