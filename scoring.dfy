/** The scoring table and the drive-level scoring derivation shared by both versions of
    the engine (`calculate_points` and `calculate_scoring` are the same code in each). */
module Scoring {
  import opened Base

  /** `__scoring_dict__`: points per scoring category. */
  const ScoringDict: map<string, int> :=
    map["TD" := 6, "FG" := 3, "PAT" := 1, "PAT2" := 2, "SFTY" := 2]

  /** `__scoring_dict__.get(t)`: absent for a category the table does not list. */
  function PointsFor(t: string): (r: Option<int>)
    ensures r.Some? <==> t in ScoringDict
    ensures r.Some? ==> r.value == ScoringDict[t] && 1 <= r.value <= 6
  {
    if t in ScoringDict then Some(ScoringDict[t]) else None
  }

  /** `Play.calculate_points`: the new value of a play's `points` given its scoring
      category and its current points. A play is built with points 0, so afterwards its
      points are non-zero exactly when it has a category the table lists, and are absent
      when its category is one the table does not list. */
  function CalculatePoints(scoringType: Option<string>, points: Option<int>): (r: Option<int>)
    ensures scoringType.None? ==> r == points
    ensures points == Some(0) ==> (r == Some(0) <==> scoringType.None?)
    ensures points == Some(0) ==> (r.None? <==> scoringType.Some? && scoringType.value !in ScoringDict)
    ensures scoringType.Some? && r.Some? ==> scoringType.value in ScoringDict && r.value == ScoringDict[scoringType.value]
  {
    if scoringType.Some? then PointsFor(scoringType.value) else points
  }

  /** What drive scoring reads of one play: its points and its scoring team. */
  datatype ScoreEntry = ScoreEntry(points: Option<int>, team: Option<string>)

  /** Python's `sum` over the plays' points: absent (a TypeError) when any play's points
      are absent. */
  function Total(es: seq<ScoreEntry>): (r: Option<int>)
    ensures r.None? <==> exists i :: 0 <= i < |es| && es[i].points.None?
  {
    if es == [] then Some(0)
    else if es[0].points.None? then None
    else match Total(es[1..])
      case None => assert es[1..][0] == es[1]; None   // the failing entry sits later in es
      case Some(s) => Some(es[0].points.value + s)
  }

  /** Adds two sums, absent when either is. */
  function Plus(a: Option<int>, b: Option<int>): Option<int> {
    if a.Some? && b.Some? then Some(a.value + b.value) else None
  }

  lemma PlusAssoc(a: Option<int>, b: Option<int>, c: Option<int>)
    ensures Plus(Plus(a, b), c) == Plus(a, Plus(b, c))
  {
  }

  /** Summing a concatenation is summing its parts. */
  lemma {:induction false} TotalAppend(a: seq<ScoreEntry>, b: seq<ScoreEntry>)
    ensures Total(a + b) == Plus(Total(a), Total(b))
  {
    if a != [] {
      assert (a + b)[0] == a[0] && (a + b)[1..] == a[1..] + b;
      TotalAppend(a[1..], b);
    } else {
      assert a + b == b;
    }
  }

  /** Python's `any([x.points for x in plays])`: some play has truthy (present, non-zero)
      points. */
  predicate AnyScores(es: seq<ScoreEntry>) {
    exists i :: 0 <= i < |es| && es[i].points.Some? && es[i].points.value != 0
  }

  /** Every present point value is non-negative, as every table value is. */
  predicate NonNegative(es: seq<ScoreEntry>) {
    forall i :: 0 <= i < |es| && es[i].points.Some? ==> es[i].points.value >= 0
  }

  /** A sum of non-negative points with a non-zero member is positive. */
  lemma {:induction false} TotalPositive(es: seq<ScoreEntry>)
    requires NonNegative(es) && AnyScores(es) && Total(es).Some?
    ensures Total(es).value > 0
  {
    var rest := es[1..];
    assert forall i :: 0 <= i < |rest| ==> rest[i] == es[i + 1];
    if es[0].points.value == 0 {
      var i :| 0 <= i < |es| && es[i].points.Some? && es[i].points.value != 0;
      assert rest[i - 1] == es[i];
      TotalPositive(rest);
    } else if AnyScores(rest) {
      TotalPositive(rest);
    } else {
      TotalOfNoScore(rest);
    }
  }

  /** The same fact, stated for a drive whether or not its points are non-negative. */
  lemma ScoredDrivePositive(es: seq<ScoreEntry>)
    ensures NonNegative(es) && AnyScores(es) && Total(es).Some? ==> Total(es).value > 0
  {
    if NonNegative(es) && AnyScores(es) && Total(es).Some? {
      TotalPositive(es);
    }
  }

  /** A drive without any truthy points, whose sum succeeds, sums to zero. */
  lemma {:induction false} TotalOfNoScore(es: seq<ScoreEntry>)
    requires !AnyScores(es) && Total(es).Some?
    ensures Total(es) == Some(0)
  {
    if es != [] {
      var rest := es[1..];
      assert forall i :: 0 <= i < |rest| ==> rest[i] == es[i + 1];
      assert !AnyScores(rest);
      TotalOfNoScore(rest);
    }
  }

  /** `[x.scoring_team_abbr for x in plays if x.points != 0]`: the scoring teams of the
      plays whose points are not 0 (absent points count, as `None != 0`), in play order. */
  function ScorerTeams(es: seq<ScoreEntry>): (r: seq<Option<string>>)
    ensures |r| <= |es|
    ensures |r| > 0 <==> exists i :: 0 <= i < |es| && es[i].points != Some(0)
    ensures |r| > 0 ==> exists k :: 0 <= k < |es| && es[k].points != Some(0) && r[0] == es[k].team &&
                                     forall j :: 0 <= j < k ==> es[j].points == Some(0)
  {
    if es == [] then []
    else
      var rest := ScorerTeams(es[1..]);
      assert forall i :: 1 <= i < |es| ==> es[1..][i - 1] == es[i];
      if es[0].points != Some(0) then [es[0].team] + rest
      else
        assert |rest| > 0 ==> exists k :: 1 <= k < |es| && es[k].points != Some(0) && rest[0] == es[k].team &&
                                          forall j :: 0 <= j < k ==> es[j].points == Some(0);
        rest
  }

  /** The drive's consistency check as written: `all(x != first for x in list)`. */
  predicate ConflictWarning(teams: seq<Option<string>>) {
    forall i :: 0 <= i < |teams| ==> teams[i] != teams[0]
  }

  /** The check compares the first element with itself, so on the non-empty list it is
      evaluated on, it never warns, even when two different teams scored. */
  lemma ConflictWarningNeverRaised(teams: seq<Option<string>>)
    requires |teams| > 0
    ensures !ConflictWarning(teams)
  {
    assert teams[0] == teams[0];
  }

  /** What `Drive.calculate_scoring` does: leave points and scoring team as they are,
      raise on an unsummable play, or set both (and say whether the warning was logged). */
  datatype ScoreOutcome =
    | Unchanged
    | SumFailed
    | Scored(points: int, team: Option<string>, conflictWarned: bool)

  /** `Drive.calculate_scoring` as a function of the drive's plays. */
  function DriveScoring(es: seq<ScoreEntry>): (r: ScoreOutcome)
    ensures r.Unchanged? <==> !AnyScores(es)
    ensures r.SumFailed? <==> AnyScores(es) && Total(es).None?
    ensures r.Scored? ==> Total(es) == Some(r.points) && !r.conflictWarned
    ensures r.Scored? && NonNegative(es) ==> r.points > 0
    ensures r.Scored? ==> exists k :: 0 <= k < |es| && es[k].points != Some(0) && r.team == es[k].team &&
                                      forall j :: 0 <= j < k ==> es[j].points == Some(0)
  {
    if !AnyScores(es) then Unchanged
    else match Total(es)
      case None => SumFailed
      case Some(s) =>
        var teams := ScorerTeams(es);
        assert |teams| > 0;
        ConflictWarningNeverRaised(teams);
        ScoredDrivePositive(es);
        Scored(s, teams[0], ConflictWarning(teams))
  }
}
