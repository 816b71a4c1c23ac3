/** How the two versions of the engine differ on the same feed: where they agree on a
    play's position, and the cases where the newer one reads the feed differently. */
module EngineCompare {
  import opened Base
  import opened Feed
  import opened Yardlines
  import NflPlays
  import NflDrives
  import OldPlays
  import OldDrives

  /** For an ordinary play with an id, a team, a side and a yard number, both versions place
      the play at the same signed distance from midfield, yard number 50 included. */
  lemma PositionAgrees(raw: RawPlay)
    requires raw.playId.Some? && raw.teamId.Some? && OldPlays.HasSide(raw) && raw.yardlineNumber.Some?
    requires !NflPlays.IsFake(raw.playType)
    ensures NflPlays.ProcessPlayDict(raw).Ok? && OldPlays.ProcessPlay(raw).Ok?
    ensures var y := OldPlays.ProcessPlay(raw).value.yardline;
            y.Some? && NflPlays.ProcessPlayDict(raw).value.yardline.yardInt == y.value.yardInt
  {
  }

  /** The newer version reads the position before the play id, the older one the id
      first: a record missing both its id and its team reports different errors. */
  lemma ErrorOrderDiffers(raw: RawPlay)
    requires raw.playId.None? && raw.teamId.None? && OldPlays.HasSide(raw)
    requires !NflPlays.IsFake(raw.playType) && raw.yardlineNumber != Some(50)
    ensures NflPlays.ProcessPlayDict(raw) == Err(MissingTeamId)
    ensures OldPlays.ProcessPlay(raw) == Err(MissingPlayId)
  {
  }

  /** An administrative play with a side has an unknown position in the newer version and
      the feed's position in the older one. */
  lemma AdministrativePositionDiffers(raw: RawPlay)
    requires raw.playId.Some? && raw.teamId.Some? && OldPlays.HasSide(raw) && raw.yardlineNumber.Some?
    requires NflPlays.IsFake(raw.playType)
    ensures NflPlays.ProcessPlayDict(raw).Ok? && NflPlays.ProcessPlayDict(raw).value.yardline == Unknown
    ensures OldPlays.ProcessPlay(raw).Ok? && OldPlays.ProcessPlay(raw).value.yardline.Some?
  {
  }

  /** A drive of one play that is not a kickoff starts at that play in the newer version
      and at an unknown position in the older one. */
  lemma SinglePlayStartDiffers(p: NflPlays.Play, q: OldPlays.OldPlay)
    requires !NflDrives.IsKickoff(p)
    ensures NflDrives.DriveStart([p]) == Ok((p.yardline, p.playTime))
    ensures OldDrives.DriveStart([q]) == Ok(OldPlays.UnknownStart)
  {
  }
}
