/** The already-parsed play-by-play feed of one game: every attribute the engine reads,
    each one possibly absent, and the conditions under which the engine raises. */
module Feed {
  import opened Base

  /** One `play` element of the feed (its `@`-attributes and `playDescription`). */
  datatype RawPlay = RawPlay(
    playId: Option<int>,
    teamId: Option<string>,
    playDescription: Option<string>,
    playType: Option<string>,
    quarter: Option<string>,
    time: Option<string>,
    yardlineSide: Option<string>,
    yardlineNumber: Option<int>,
    scoringType: Option<string>,
    scoringTeamId: Option<string>)

  /** One `drive` element: its sequence number, possessing team, the start and end times
      read by the older parser, and its `plays/play` list (absent when the element has none). */
  datatype RawDrive = RawDrive(
    sequence: Option<int>,
    possessionTeamAbbr: Option<string>,
    startTime: Option<string>,
    endTime: Option<string>,
    plays: Option<seq<RawPlay>>)

  /** The `boxScorePBPFeed` root: final scores, the drives and the flat scoring-play list. */
  datatype RawGame = RawGame(
    homeScore: int,
    awayScore: int,
    drives: seq<RawDrive>,
    scoringPlays: Option<seq<RawPlay>>)

  /** Every way building or reconciling a game raises, named after its cause. */
  datatype FeedError =
    | MissingPlayId           // int(None) on '@playId'
    | MissingTeamId           // play['@teamId'] when a yardline side is present
    | MissingYardlineNumber   // play['@yardlineNumber'] when a yardline side is present
    | MissingSequence         // x['@sequence'] of a drive
    | MissingPossessionTeam   // x['@possessionTeamAbbr'] of a drive
    | MissingDriveTime        // x['@startTime'] / x['@endTime'] (older parser only)
    | MissingPlays            // x['plays'].get('play') is absent
    | EmptyDrive              // plays_list[0] on an empty drive
    | UnscorablePoints        // sum() over a play whose points are None
    | MissingScoringPlays     // full_dict['scoringPlays']['play'] is absent
    | NoEarlierPlay           // max([]) when no detected play precedes a missing one
    | DriveIndexOutOfRange    // self.drives[max_drive_id - 1] outside the list

  /** The signed distance from midfield that both parsers compute from a play's side and
      yard number: negative when the side named is the team's own. */
  function SignedYards(teamId: string, yardlineSide: string, yardlineNumber: int): int {
    (if teamId == yardlineSide then -1 else 1) * (50 - yardlineNumber)
  }
}
