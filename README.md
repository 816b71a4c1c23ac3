# pynfldata drive engine in Dafny

This project models the core of pynfldata. That core turns an NFL play-by-play feed into
a list of drives, one record per drive: who had the ball, where the drive started, how
many plays it ran, who scored and how many points.

Two versions of the engine are modelled side by side:

- **Newer engine** (`pynfldata/data_tools/nfl_types.py`), in modules `Yardlines`,
  `NflPlays`, `NflDrives` and `NflGame`.
  - A `Yardline` derives its side of the field and its distance from the goal line from
    a signed distance to midfield.
  - A `Play` is built from one feed record.
  - A `Drive` scores itself from its plays, finds where it started, and renames
    relocated teams for the season.
  - A `Game` builds its drives, checks their points against the final score and
    reconciles the gap. It then scans for duplicate play ids and exports a
    drive-level record.
- **Older engine** (`pynfldata/nfl_data_parser/drive_parser.py`), in modules
  `OldPlays`, `OldDrives` and `OldGame`.
  - The same pipeline with the older records.
  - The differences from the newer engine are in `EngineCompare`.
- **Team-name rewrite** (`_process_team_continuity` of
  `pynfldata/data_tools/team_functions.py`), in module `TeamFunctions`. It maps a row's
  historical team abbreviation to the franchise's current one.

### Shared modules

- `Base`: `Option`, `Result` and `MapResult`. `MapResult` is a comprehension that stops
  at the first element that raises.
- `Feed`: the already-parsed feed, and one `FeedError` per exception the engine can
  raise.
- `Scoring`: the points table and `calculate_scoring`. This code is the same in both
  engines.
- `Duplicates`: the duplicate-id test.
- `Reconcile`: `_remedy_incorrect_scoreline` and `check_score_integrity` on values. It
  is generic over the play type, so both engines use it.

### How the model is built

- The classes `Drive`, `OldDrive`, `Game` and `OldGame` keep the source's objects and
  their in-place updates.
- Each of their methods is proved against a pure function of the old state. Examples are
  `PostInitValue`, `PlaceOne`/`PlaceAll`, `Remedy`, `CheckScoreIntegrity` and
  `CheckAndRemedy`. The properties are proved as lemmas about those functions.

### Properties proved

- Python exceptions are `Err` results, raised in the order the source evaluates its
  expressions:
  - `KeyError` on a missing attribute.
  - `TypeError` from `int(None)` or from `sum` over a missing point value.
  - `IndexError` on an empty drive.
  - `ValueError` from `max([])`.
- A play's points are absent after `calculate_points` when its scoring type is not in
  the table.
- A drive that does not score keeps `points` and `scoring_team` at `None`.
- The different-scoring-teams warning can never fire: its test compares the first
  element with itself.
- In the newer engine, every play carries a `Yardline` object, so the "no yardline"
  branch of `calculate_drive_start` is dead.
- Reconciliation decides a scoring play is missing by whole-play equality.
  - Each missing play goes to the drive at list position `drive_id - 1`, where
    `drive_id` is the id of the drive holding the nearest earlier play, with Python's
    negative indexing. That is the drive holding that play only when the drive ids run
    1..n in list order; nothing in the source checks this.
  - The list of detected plays is computed once, before the loop.
  - A play with no earlier play raises.
  - After a successful reconciliation every drive holds its old plays followed by
    exactly the missing plays aimed at it. The game's play multiset grows by those
    plays, and so does its sum of points.
  - Every drive's points still agree with its plays.
- The integrity check passes exactly when the drives' recorded points add up to the
  final score. When it passes, the exported points do too.

## Model

| member | source | states |
|---|---|---|
| `Base.MapResult` | pynfldata/data_tools/nfl_types.py:201-203 | a comprehension succeeds exactly when every element does, yielding each element's result in order; otherwise its error is that of the first element that raises |
| `Scoring.PointsFor` | pynfldata/data_tools/nfl_types.py:48 | `__scoring_dict__.get`: present exactly for the five listed categories, with the table's value, between 1 and 6 |
| `Scoring.CalculatePoints` | pynfldata/data_tools/nfl_types.py:66-68 | no scoring type leaves the points; on a fresh play (points 0) the result is 0 exactly without a type and absent exactly for an unlisted type; a present result is the table's value |
| `Scoring.Total` | pynfldata/data_tools/nfl_types.py:104 | `sum` over the plays' points is absent (raises) exactly when some play's points are absent |
| `Scoring.TotalAppend` | pynfldata/data_tools/nfl_types.py:237 | summing a concatenation is adding the sums of its parts |
| `Scoring.TotalPositive` | pynfldata/data_tools/nfl_types.py:103-104 | a successful sum of non-negative points with a truthy member is positive |
| `Scoring.TotalOfNoScore` | pynfldata/data_tools/nfl_types.py:103 | a drive without truthy points whose sum succeeds sums to 0 |
| `Scoring.ScorerTeams` | pynfldata/data_tools/nfl_types.py:105 | the teams of the plays whose points are not 0, non-empty exactly when such a play exists, its head the team of the first one |
| `Scoring.ConflictWarningNeverRaised` | pynfldata/data_tools/nfl_types.py:106-107 | `all(x != list[0] for x in list)` is false on every non-empty list, so the warning is never logged |
| `Scoring.DriveScoring` | pynfldata/data_tools/nfl_types.py:102-108 | unchanged exactly when no play has truthy points; raises exactly when one has and the sum fails; otherwise the sum (positive for non-negative points) and the team of the first play with points other than 0, with no warning |
| `Duplicates.DistinctCount` | pynfldata/data_tools/nfl_types.py:229-230 | a list has at most as many distinct ids as entries, and exactly as many exactly when no id repeats |
| `Duplicates.DuplicateIdsIff` | pynfldata/data_tools/nfl_types.py:229-231 | the duplicate warning's test holds exactly when two plays share an id |
| `Yardlines.MakeYardline` | pynfldata/data_tools/nfl_types.py:30-39 | `Yardline(yard_int)` keeps `yard_int`; side and side position are absent exactly when it is |
| `Yardlines.SideRoundTrip` | pynfldata/data_tools/nfl_types.py:30-39 | the derived side and side position give back the signed distance |
| `Yardlines.SideOfPosition` | pynfldata/data_tools/nfl_types.py:34-39 | 0 is OWN 50; a negative distance is OWN at `50 + y`; a positive one is OPP at `50 - y` |
| `Yardlines.SidePosInRange` | pynfldata/data_tools/nfl_types.py:39 | a distance within 50 of midfield has a side position between 0 and 50 |
| `Yardlines.IntToString` | pynfldata/data_tools/nfl_types.py:45 | `str` of an integer is non-empty, made of digits, with a leading `-` exactly when negative |
| `Yardlines.NatToStringRoundTrip` | pynfldata/data_tools/nfl_types.py:45 | the digits written for a natural number read back as that number |
| `Yardlines.RenderMidfield` | pynfldata/data_tools/nfl_types.py:41-45 | `__repr__` is `MIDFIELD` exactly at 0; otherwise `OWN`/`OPP` followed by the side position |
| `NflPlays.PlayYardline` | pynfldata/data_tools/nfl_types.py:131-140 | the position raises exactly for an ordinary play, not at yard number 50, with a side but without a team or a yard number, and raises on the team first; otherwise an administrative play is unknown, yard number 50 is midfield, an ordinary play without a side is unknown, and one with a side gets the signed distance from its team's own goal line |
| `NflPlays.ProcessPlayDict` | pynfldata/data_tools/nfl_types.py:130-150 | `_process_play_dict` raises exactly when the position raises or the id is missing, the position error first; a built play carries the feed's id, team, description, type, scoring type, scoring team and clock, the position `PlayYardline` gives, points 0, and is real exactly when its type is not administrative |
| `NflPlays.PlayPositionRoundTrip` | pynfldata/data_tools/nfl_types.py:136-138 | for an ordinary play below yard number 50 the side position is the feed's yard number, and the side is OWN exactly when the feed names the team's own side |
| `NflPlays.SpecialPositions` | pynfldata/data_tools/nfl_types.py:132-135 | yard number 50 is midfield; an administrative play, and an ordinary play without a side, have an unknown position |
| `NflPlays.WithPoints` | pynfldata/data_tools/nfl_types.py:66-68 | `calculate_points` changes only a play's points, to the value `CalculatePoints` gives |
| `NflPlays.AllWithPoints` | pynfldata/data_tools/nfl_types.py:84 | every play of the list goes through `calculate_points`, in place |
| `NflPlays.BuiltPlayPoints` | pynfldata/data_tools/nfl_types.py:142-150 | a built play ends with 0 points without a scoring type, the table's points for a listed one, and no points for an unlisted one |
| `NflPlays.CountRealPlays` | pynfldata/data_tools/nfl_types.py:253 | the exported play count is at most the number of plays, equal to it exactly when every play is real, 0 exactly when none is |
| `NflPlays.CountRealPlaysAppend` | pynfldata/data_tools/nfl_types.py:253 | counting real plays of two lists adds the counts |
| `NflDrives.DriveStart` | pynfldata/data_tools/nfl_types.py:90-99 | `calculate_drive_start` raises exactly on an empty list |
| `NflDrives.DriveStartFirstNonKickoff` | pynfldata/data_tools/nfl_types.py:93-96 | the start is the position and clock of the first play that is not a kickoff; a play without a position is never skipped |
| `NflDrives.DriveStartAllKickoffs` | pynfldata/data_tools/nfl_types.py:91-94 | a drive of kickoffs only starts at an unknown position and clock |
| `NflDrives.CorrectTeamRules` | pynfldata/data_tools/nfl_types.py:112-126 | JAX becomes JAC before 2013, LAC becomes SD up to 2017, LA becomes STL up to 2016, and a name changes only under one of those rules |
| `NflDrives.CorrectTeamIdempotent` | pynfldata/data_tools/nfl_types.py:112-126 | correcting twice is correcting once |
| `NflDrives.TalliesOfUpdate` | pynfldata/data_tools/nfl_types.py:194-196 | replacing one drive replaces only its part of what reconciliation reads |
| `NflDrives.PostInitValue` | pynfldata/data_tools/nfl_types.py:83-86 | the rest of `__post_init__` raises exactly when the sum fails on a scoring drive or the drive is empty; the error is the sum's when it fails and the empty drive's otherwise; otherwise the drive is rescored and gets its start and start time |
| `NflDrives.BuildDrive` | pynfldata/data_tools/nfl_types.py:73-86 | a built drive keeps its id and team and holds its plays after `calculate_points` |
| `NflDrives.BuiltDriveConsistent` | pynfldata/data_tools/nfl_types.py:83-85 | a built drive's points are its plays' sum when a play scores, and a drive that does not score keeps `points` and `scoring_team` at `None` |
| `NflDrives.CorrectValue` | pynfldata/data_tools/nfl_types.py:112-126 | `correct_drive_team` changes only the possessing and scoring team, each by `CorrectTeam` |
| `NflDrives.DriveArgs` | pynfldata/data_tools/nfl_types.py:201-203 | reads sequence, plays and possessing team in that order; raises exactly when one is missing or a play raises, with the first such error |
| `NflDrives.RawToDrive` | pynfldata/data_tools/nfl_types.py:201-203 | a drive built from the feed always has a start and a start time |
| `NflDrives.Drive.constructor` | pynfldata/data_tools/nfl_types.py:73-84 | a new drive holds its id, team and plays after `calculate_points`, with start, start time, points and scoring team absent |
| `NflDrives.Drive.CalculateScoring` | pynfldata/data_tools/nfl_types.py:102-108 | the drive becomes `Rescore` of its old state; the error is raised exactly when the sum fails; nothing else changes |
| `NflDrives.Drive.AppendPlay` | pynfldata/data_tools/nfl_types.py:194-196 | the play is appended and the drive rescored, the append surviving a failing sum |
| `NflDrives.Drive.PostInit` | pynfldata/data_tools/nfl_types.py:85-86 | the object ends as `PostInitValue` of its state, or with its error |
| `NflDrives.Drive.CorrectDriveTeam` | pynfldata/data_tools/nfl_types.py:112-126 | the six checks leave the drive at `CorrectValue` of its old state |
| `NflGame.CorrectAll` | pynfldata/data_tools/nfl_types.py:205-206 | every drive corrected for the season, in order |
| `NflGame.ScoringPlays` | pynfldata/data_tools/nfl_types.py:180-181 | the scoring plays are built and given their points one by one; raises exactly when the list is missing or a play raises, with that error |
| `NflGame.ExportDrive` | pynfldata/data_tools/nfl_types.py:249-255 | a drive's record carries its id, team, starting `yard_int`, starting clock, scoring team and points, and counts its real plays: at most all plays, and all of them exactly when all are real |
| `NflGame.ExportedPointsSum` | pynfldata/data_tools/nfl_types.py:249-255 | the exported points add up to the drives' recorded points |
| `NflGame.BuiltDrivesConsistent` | pynfldata/data_tools/nfl_types.py:198-208 | every drive `_get_drive_details` yields, corrected or not, has points that agree with its plays |
| `NflGame.Game.constructor` | pynfldata/data_tools/nfl_types.py:154-164 | a new game holds the schedule fields, no drives and zero scores |
| `NflGame.Game.NewDrive` | pynfldata/data_tools/nfl_types.py:201-203 | a fresh drive object holding `RawToDrive` of the raw drive, or its error |
| `NflGame.Game.NewDrives` | pynfldata/data_tools/nfl_types.py:201-203 | the loop builds one fresh, distinct drive per raw drive, or stops at the first that raises |
| `NflGame.Game.BuildDriveList` | pynfldata/data_tools/nfl_types.py:201-203 | the drive objects hold `BuildDrives` of the feed, with its error on failure |
| `NflGame.Game.CorrectTeams` | pynfldata/data_tools/nfl_types.py:205-206 | the loop leaves the drives at `CorrectAll` of their old values |
| `NflGame.Game.BuildAndCorrect` | pynfldata/data_tools/nfl_types.py:201-206 | the built drives, corrected for the season, every one with a start and a start time |
| `NflGame.Game.GetDriveDetails` | pynfldata/data_tools/nfl_types.py:198-208 | `drives` becomes the corrected built drives, and stays as it was when building raises |
| `NflGame.Game.Export` | pynfldata/data_tools/nfl_types.py:242-257 | the game's id, season, season type, week and teams, and one record per drive, in order, whose points add up to the drives' recorded points |
| `NflGame.Game.AppendAndRescore` | pynfldata/data_tools/nfl_types.py:194-196 | only the target drive changes, to its plays plus the new one, rescored |
| `NflGame.Game.RemedyIncorrectScoreline` | pynfldata/data_tools/nfl_types.py:175-196 | the drives end as `Remedy` of their old state, with its error, and the scoring-play error leaves them unchanged |
| `NflGame.Game.PlaceOneMissing` | pynfldata/data_tools/nfl_types.py:189-196 | one round of the loop is `PlaceOne` |
| `NflGame.Game.PlaceMissing` | pynfldata/data_tools/nfl_types.py:187-196 | the loop is `PlaceAll`, with the detected plays fixed before it |
| `NflGame.Game.GetGameDetails` | pynfldata/data_tools/nfl_types.py:211-233 | scores set; a building error is raised and leaves the drives; otherwise the drives' tallies are `CheckAndRemedy` of the built and corrected drives with teams and starts kept (exactly those drives when the first check passes), an exception is raised exactly when `CheckAndRemedy` raises one, the warning flag is set exactly when the last check fails, the drives are consistent, the duplicate flags are the scan's, and without the warning the exported points equal the final score |
| `Reconcile.Entries` | pynfldata/data_tools/nfl_types.py:237 | the scoring view of each play, in order |
| `Reconcile.AllPlaysAppend` | pynfldata/data_tools/nfl_types.py:237 | the plays of a concatenation of drives are the concatenated plays |
| `Reconcile.AllPlaysAround` | pynfldata/data_tools/nfl_types.py:194 | replacing one drive replaces its stretch of the game's plays |
| `Reconcile.DetectedMember` | pynfldata/data_tools/nfl_types.py:177 | a pair is detected exactly when its play belongs to a drive with that id |
| `Reconcile.DetectedPlays` | pynfldata/data_tools/nfl_types.py:184 | the plays of the detected pairs, in order |
| `Reconcile.Undetected` | pynfldata/data_tools/nfl_types.py:184 | exactly the scoring plays not equal to a detected play, as whole values |
| `Reconcile.IdsOf` | pynfldata/data_tools/nfl_types.py:190 | the detected play ids, in order |
| `Reconcile.Below` | pynfldata/data_tools/nfl_types.py:190 | the ids below the missing play's id, and only those |
| `Reconcile.MaxOf` | pynfldata/data_tools/nfl_types.py:190 | `max` of a non-empty list is a member not below any other |
| `Reconcile.FirstIndexOf` | pynfldata/data_tools/nfl_types.py:192 | the `[0]` of the filtered list is the first pair holding the id |
| `Reconcile.PyIndex` | pynfldata/data_tools/nfl_types.py:194 | Python indexing: in range exactly from `-n` to `n - 1`, a negative index counting from the end |
| `Reconcile.TargetIndex` | pynfldata/data_tools/nfl_types.py:190-194 | the target is a position in the drive list, or `max([])` or the indexing raises |
| `Reconcile.BelowEmpty` | pynfldata/data_tools/nfl_types.py:190 | the filtered list is empty exactly when no id is below the missing play's |
| `Reconcile.NearestEarlierAt` | pynfldata/data_tools/nfl_types.py:190-192 | the pair the target is read from holds the greatest id below the missing play's and is the first pair holding it |
| `Reconcile.TargetIndexNoEarlier` | pynfldata/data_tools/nfl_types.py:190 | `max([])` raises exactly when no detected play has a smaller id |
| `Reconcile.TargetIndexNearest` | pynfldata/data_tools/nfl_types.py:189-194 | the target is position `drive_id - 1` of the first pair holding the nearest earlier play, by list position and not by drive id |
| `Reconcile.Rescore` | pynfldata/data_tools/nfl_types.py:102-108 | rescoring keeps id and plays; a drive without truthy points, or whose sum raises, is unchanged; otherwise the points become the sum and the team that of the first play whose points are not 0 |
| `Reconcile.PlaceOne` | pynfldata/data_tools/nfl_types.py:189-196 | a successful round appends the play to its target drive, rescored, leaving every other drive |
| `Reconcile.PlaceOneIs` | pynfldata/data_tools/nfl_types.py:194-196 | a round's result is determined by the target drive's new state, the error raised exactly when its sum fails |
| `Reconcile.PlaceOneUpdates` | pynfldata/data_tools/nfl_types.py:194-196 | a successful round replaces the target drive with one whose plays have the play appended |
| `Reconcile.PlaceOneAddsPlays` | pynfldata/data_tools/nfl_types.py:194 | one round adds its play to the game's plays, as a multiset |
| `Reconcile.PlaceOneAddsPoints` | pynfldata/data_tools/nfl_types.py:194 | one round adds its play's points to the game's sum |
| `Reconcile.PlaceAll` | pynfldata/data_tools/nfl_types.py:187-196 | the loop keeps the drive list's length and ids |
| `Reconcile.PlaceAllStep` | pynfldata/data_tools/nfl_types.py:188-196 | a successful loop is a successful loop over all but the last play, then a successful round |
| `Reconcile.PlaceAllSnoc` | pynfldata/data_tools/nfl_types.py:188-196 | one more round after a successful prefix is `PlaceOne` |
| `Reconcile.PlaceAllStops` | pynfldata/data_tools/nfl_types.py:188-196 | the first exception ends the loop: later plays change nothing |
| `Reconcile.PlaceAllAppends` | pynfldata/data_tools/nfl_types.py:187-196 | after a successful loop every drive holds its old plays followed by exactly the missing plays aimed at it, and every missing play had a target |
| `Reconcile.PlacedInStep` | pynfldata/data_tools/nfl_types.py:194 | one more placed play lands at the end of its target drive only |
| `Reconcile.PlacedInMember` | pynfldata/data_tools/nfl_types.py:194 | a missing play lands in a drive exactly when that drive is its target |
| `Reconcile.PlaceAllAddsPlays` | pynfldata/data_tools/nfl_types.py:187-196 | a successful loop adds exactly the missing plays to the game's plays, as a multiset |
| `Reconcile.PlaceAllAddsPoints` | pynfldata/data_tools/nfl_types.py:187-196 | a successful loop adds the missing plays' points to the game's sum |
| `Reconcile.TotalInsert` | pynfldata/data_tools/nfl_types.py:237 | inserting entries inside a list adds their sum |
| `Reconcile.PlaceOneKeepsConsistent` | pynfldata/data_tools/nfl_types.py:194-196 | a successful round keeps every drive's points in agreement with its plays |
| `Reconcile.PlaceAllKeepsConsistent` | pynfldata/data_tools/nfl_types.py:187-196 | a successful loop keeps every drive's points in agreement with its plays |
| `Reconcile.TotalByDrives` | pynfldata/data_tools/nfl_types.py:237 | for consistent drives the sum over all plays equals the sum of the drives' points |
| `Reconcile.CheckScoreIntegrity` | pynfldata/data_tools/nfl_types.py:236-239 | raises exactly when some play has no points; true exactly when the plays' sum is the final score |
| `Reconcile.TotalOfEntries` | pynfldata/data_tools/nfl_types.py:237 | the sum over all plays fails exactly when some play has no points |
| `Reconcile.IntegrityByDrives` | pynfldata/data_tools/nfl_types.py:236-239 | with consistent drives the check passes exactly when the drives' points add up to the final score |
| `Reconcile.RemedyClosesGap` | pynfldata/data_tools/nfl_types.py:222-224 | after a successful remedy the second check passes exactly when the missing plays' points make up the gap |
| `Reconcile.CheckAndRemedy` | pynfldata/data_tools/nfl_types.py:219-223 | a passing or raising first check leaves the drives; a failing one runs reconciliation and a second check, raising the scoring plays', reconciliation's or the check's exception; the last check made passes exactly when the plays' points sum to the final score, and a passing first check is the last |
| `Reconcile.CheckAndRemedyConsistent` | pynfldata/data_tools/nfl_types.py:219-223 | from consistent drives, what the check and reconciliation leave is consistent, and the last check passes exactly when the drives' recorded points add up to the final score |
| `Reconcile.PlayIds` | pynfldata/data_tools/nfl_types.py:229 | the ids of a drive's plays, in order |
| `Reconcile.DuplicateFlags` | pynfldata/data_tools/nfl_types.py:228-231 | one flag per drive |
| `Reconcile.DuplicateFlagsIff` | pynfldata/data_tools/nfl_types.py:228-231 | a drive is flagged exactly when two of its plays share an id |
| `OldPlays.OldPlayYardline` | pynfldata/nfl_data_parser/drive_parser.py:95-99 | no position without a truthy side; with one, raises on a missing team first, then on a missing yard number |
| `OldPlays.ProcessPlay` | pynfldata/nfl_data_parser/drive_parser.py:91-102 | `_process_play` raises on a missing id before any position error; a built play carries the feed's id, team, description, type, scoring type and scoring team, the position `OldPlayYardline` gives (none without a side), and points 0 |
| `OldPlays.OldPlayPosition` | pynfldata/nfl_data_parser/drive_parser.py:95-99 | side and yard number kept as given; the signed distance is at most 0 exactly on the team's own side or at 50, with no special cases |
| `OldPlays.OldWithPoints` | pynfldata/nfl_data_parser/drive_parser.py:47-49 | `calculate_points` changes only the points, to `CalculatePoints` |
| `OldPlays.AllOldWithPoints` | pynfldata/nfl_data_parser/drive_parser.py:65 | every play goes through `calculate_points`, in place |
| `OldPlays.OldBuiltPlayPoints` | pynfldata/nfl_data_parser/drive_parser.py:91-102 | a built play ends with 0 points without a type, the table's for a listed one, none for an unlisted one |
| `OldDrives.DriveStart` | pynfldata/nfl_data_parser/drive_parser.py:71-80 | `calculate_drive_start` raises exactly on an empty list |
| `OldDrives.DriveStartFirstPlaced` | pynfldata/nfl_data_parser/drive_parser.py:74-80 | the start is the position of the first play that is neither a kickoff nor without a position, provided it is not the last play |
| `OldDrives.DriveStartNonePlaced` | pynfldata/nfl_data_parser/drive_parser.py:72-73 | when every play but the last is skipped the start is unknown |
| `OldDrives.DriveStartIgnoresLast` | pynfldata/nfl_data_parser/drive_parser.py:72-73 | the last play never decides the start |
| `OldDrives.OldTalliesOfUpdate` | pynfldata/nfl_data_parser/drive_parser.py:158-160 | replacing one drive replaces only its part of what reconciliation reads |
| `OldDrives.OldPostInitValue` | pynfldata/nfl_data_parser/drive_parser.py:64-67 | raises exactly when the sum fails on a scoring drive or the drive is empty, with the sum's error first; otherwise rescored, with its start, times and team kept |
| `OldDrives.OldBuildDrive` | pynfldata/nfl_data_parser/drive_parser.py:53-67 | a built drive keeps id and team and holds its plays after `calculate_points` |
| `OldDrives.OldBuiltDriveConsistent` | pynfldata/nfl_data_parser/drive_parser.py:64-66 | a built drive's points agree with its plays, and a drive that does not score keeps `None` |
| `OldDrives.OldDriveArgs` | pynfldata/nfl_data_parser/drive_parser.py:108-112 | reads sequence, start and end time, plays and team in that order; raises exactly when one is missing or a play raises, with the first such error |
| `OldDrives.OldRawToDrive` | pynfldata/nfl_data_parser/drive_parser.py:108-112 | a drive built from the feed always has a start |
| `OldDrives.OldDrive.constructor` | pynfldata/nfl_data_parser/drive_parser.py:53-65 | a new drive holds its id, times, team and plays after `calculate_points`, with start, points and scoring team absent |
| `OldDrives.OldDrive.CalculateScoring` | pynfldata/nfl_data_parser/drive_parser.py:82-88 | the drive becomes `Rescore` of its old state; the error exactly when the sum fails |
| `OldDrives.OldDrive.AppendPlay` | pynfldata/nfl_data_parser/drive_parser.py:158-160 | the play is appended and the drive rescored |
| `OldDrives.OldDrive.PostInit` | pynfldata/nfl_data_parser/drive_parser.py:66-67 | the object ends as `OldPostInitValue` of its state, or with its error |
| `OldGame.OldScoringPlays` | pynfldata/nfl_data_parser/drive_parser.py:144-145 | the scoring plays built and given their points; raises exactly when the list is missing or a play raises, with that error |
| `OldGame.OldExportDrive` | pynfldata/nfl_data_parser/drive_parser.py:199-204 | a record carries the drive's id, team, starting `yard_int`, scoring team and points, and counts every play of its drive, administrative ones included |
| `OldGame.OldExportedPointsSum` | pynfldata/nfl_data_parser/drive_parser.py:199-204 | the exported points add up to the drives' recorded points |
| `OldGame.OldBuiltDrivesConsistent` | pynfldata/nfl_data_parser/drive_parser.py:105-114 | every drive built from the feed has points that agree with its plays |
| `OldGame.OldGame.constructor` | pynfldata/nfl_data_parser/drive_parser.py:118-128 | a new game holds the schedule fields, no drives and zero scores |
| `OldGame.OldGame.NewDrive` | pynfldata/nfl_data_parser/drive_parser.py:108-112 | a fresh drive object holding `OldRawToDrive` of the raw drive, or its error |
| `OldGame.OldGame.NewDrives` | pynfldata/nfl_data_parser/drive_parser.py:108-112 | one fresh, distinct drive per raw drive, or the first error |
| `OldGame.OldGame.BuildDriveList` | pynfldata/nfl_data_parser/drive_parser.py:105-114 | the drive objects hold `OldBuildDrives` of the feed, with its error on failure |
| `OldGame.OldGame.GetDriveDetails` | pynfldata/nfl_data_parser/drive_parser.py:173 | `drives` becomes the built drives, and stays as it was when building raises |
| `OldGame.OldGame.Export` | pynfldata/nfl_data_parser/drive_parser.py:192-206 | the game's id, season, season type, week and teams, and one record per drive whose points add up to the drives' recorded points |
| `OldGame.OldGame.AppendAndRescore` | pynfldata/nfl_data_parser/drive_parser.py:158-160 | only the target drive changes, to its plays plus the new one, rescored |
| `OldGame.OldGame.RemedyIncorrectScoreline` | pynfldata/nfl_data_parser/drive_parser.py:139-160 | the drives end as `Remedy` of their old state, with its error |
| `OldGame.OldGame.PlaceOneMissing` | pynfldata/nfl_data_parser/drive_parser.py:153-160 | one round of the loop is `PlaceOne` |
| `OldGame.OldGame.PlaceMissing` | pynfldata/nfl_data_parser/drive_parser.py:151-160 | the loop is `PlaceAll` |
| `OldGame.OldGame.GetGameDetails` | pynfldata/nfl_data_parser/drive_parser.py:163-183 | scores set; a building error is raised and leaves the drives; otherwise the drives' tallies are `CheckAndRemedy` of the built drives with teams, times and starts kept, an exception is raised exactly when `CheckAndRemedy` raises one, a second check is printed exactly when the first failed and prints the check's result; with no second check the drives are as built; duplicate flags are the scan's; unless `False` was printed the exported points equal the final score |
| `TeamFunctions.ProcessTeamContinuity` | pynfldata/data_tools/team_functions.py:15-49 | the ten ordered checks leave the season and rewrite the name to `Continuity` of the name and season |
| `TeamFunctions.RenamesAnyYear` | pynfldata/data_tools/team_functions.py:17-26 | BOS, JAC, PHO, SD and RAI become NE, JAX, ARI, LAC and OAK in every season |
| `TeamFunctions.MovesByYear` | pynfldata/data_tools/team_functions.py:29-47 | BAL, STL, HOU, CLE and RAM move only in the seasons their rules name |
| `TeamFunctions.UnmatchedUnchanged` | pynfldata/data_tools/team_functions.py:15-49 | a name stays exactly when no rule mentions it or its rule's season does not apply |
| `TeamFunctions.ContinuityIdempotent` | pynfldata/data_tools/team_functions.py:15-49 | rewriting twice is rewriting once, except for a Browns row before 1984 |
| `TeamFunctions.CurrentNamesFixed` | pynfldata/data_tools/team_functions.py:15-49 | no rule mentions a current abbreviation other than BAL |
| `TeamFunctions.SecondPassMovesBrowns` | pynfldata/data_tools/team_functions.py:29-43 | CLE in 1983 becomes BAL, which a second pass turns into IND |
| `EngineCompare.PositionAgrees` | pynfldata/data_tools/nfl_types.py:134-138 | both engines place an ordinary play at the same signed distance, yard number 50 included |
| `EngineCompare.ErrorOrderDiffers` | pynfldata/data_tools/nfl_types.py:132-142 | with neither id nor team, the newer engine raises on the team and the older one on the id |
| `EngineCompare.AdministrativePositionDiffers` | pynfldata/data_tools/nfl_types.py:132-133 | an administrative play has an unknown position in the newer engine and the feed's in the older one |
| `EngineCompare.SinglePlayStartDiffers` | pynfldata/nfl_data_parser/drive_parser.py:72-73 | a one-play drive that is not a kickoff starts at that play in the newer engine and at an unknown position in the older one |

## Left out

- Downloading the feed (`get_data`, `download_xml`), XML parsing and logging are left out. The model starts from an already-parsed `RawGame`, and each logged warning is a returned flag.
- String-to-number conversions are left out. `@sequence`, `@playId` and `@yardlineNumber` arrive as integers, and a conversion that would fail on a malformed string is not modelled. The newer engine compares the raw string with `'50'`; the model compares the integer with 50.
- The home and away scores arrive as integers: `int(self.home_score)` is taken as already done.
- A feed without its `score`, `drives` or `drives/drive` keys is left out: those lookups raise before anything the model covers.
- `__repr__` of `Clock` and `Game` is left out (string formatting for logs only). `drive_start_time` in the export is kept as the `Clock` value rather than its string.
- The state before `get_game_details` has run (`drives`, `home_score` and `away_score` are `None`) is left out. The constructor starts with no drives and zero scores, and every operation the model covers runs after that method has set them.
- `Play.calculate_points` is modelled on values (`WithPoints`, `OldWithPoints`), not as a method on a `Play` object. Plays are compared structurally at the source's `not in` test, so they are datatypes, and the model does not capture aliasing between a play in a drive and the same object elsewhere.
- `_process_team_continuity` works on a pandas `Series` with two named columns. The model passes a `Row` of the two columns; `make_teams_continuous` (the `DataFrame.apply` around it) is left out.
- `get_games` and the rest of `drive_parser.py` outside `Game`, `Drive`, `Play`, `Yardline`, `_process_play` and `_get_drive_details` are left out. They fetch and assemble schedules.
