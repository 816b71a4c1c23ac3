/** The reconciliation step `Game._remedy_incorrect_scoreline` as a specification on
    values. Both versions of the engine run the same code over their own play type `P`;
    `idOf` reads a play's id and `entryOf` what scoring reads of it. */
module Reconcile {
  import opened Base
  import opened Feed
  import opened Scoring
  import opened Duplicates

  /** The part of a drive reconciliation reads and writes. */
  datatype Tally<P> = Tally(driveId: int, plays: seq<P>, points: Option<int>, scoringTeam: Option<string>)

  /** The scoring view of a list of plays. */
  function Entries<P>(ps: seq<P>, entryOf: P -> ScoreEntry): (r: seq<ScoreEntry>)
    ensures |r| == |ps| && forall i :: 0 <= i < |ps| ==> r[i] == entryOf(ps[i])
  {
    seq(|ps|, i requires 0 <= i < |ps| => entryOf(ps[i]))
  }

  lemma EntriesAppend<P>(a: seq<P>, b: seq<P>, entryOf: P -> ScoreEntry)
    ensures Entries(a + b, entryOf) == Entries(a, entryOf) + Entries(b, entryOf)
  {
  }

  /** Every play of every drive, drive after drive. */
  function AllPlays<P>(ts: seq<Tally<P>>): seq<P> {
    if ts == [] then [] else ts[0].plays + AllPlays(ts[1..])
  }

  lemma {:induction false} AllPlaysAppend<P>(a: seq<Tally<P>>, b: seq<Tally<P>>)
    ensures AllPlays(a + b) == AllPlays(a) + AllPlays(b)
  {
    if a != [] {
      assert (a + b)[0] == a[0] && (a + b)[1..] == a[1..] + b;
      AllPlaysAppend(a[1..], b);
    } else {
      assert a + b == b;
    }
  }

  /** Replacing one drive replaces its stretch of the game's play list. */
  lemma AllPlaysAround<P>(ts: seq<Tally<P>>, k: nat, t: Tally<P>)
    requires k < |ts|
    ensures AllPlays(ts) == AllPlays(ts[..k]) + ts[k].plays + AllPlays(ts[k + 1..])
    ensures AllPlays(ts[k := t]) == AllPlays(ts[..k]) + t.plays + AllPlays(ts[k + 1..])
  {
    assert ts == ts[..k] + [ts[k]] + ts[k + 1..];
    assert ts[k := t] == ts[..k] + [t] + ts[k + 1..];
    AllPlaysAppend(ts[..k] + [ts[k]], ts[k + 1..]);
    AllPlaysAppend(ts[..k], [ts[k]]);
    AllPlaysAppend(ts[..k] + [t], ts[k + 1..]);
    AllPlaysAppend(ts[..k], [t]);
    assert AllPlays([ts[k]]) == ts[k].plays + AllPlays([]);
    assert AllPlays([t]) == t.plays + AllPlays([]);
  }

  /** `[(x.drive_id, y) for x in self.drives for y in x.plays]`. */
  function Detected<P>(ts: seq<Tally<P>>): (r: seq<(int, P)>)
    ensures |r| == |AllPlays(ts)|
  {
    if ts == [] then []
    else seq(|ts[0].plays|, i requires 0 <= i < |ts[0].plays| => (ts[0].driveId, ts[0].plays[i])) + Detected(ts[1..])
  }

  /** A pair is detected exactly when its play belongs to a drive with that id. */
  lemma {:induction false} DetectedMember<P>(ts: seq<Tally<P>>, d: int, p: P)
    ensures (d, p) in Detected(ts) <==> exists k :: 0 <= k < |ts| && ts[k].driveId == d && p in ts[k].plays
  {
    if ts != [] {
      DetectedMember(ts[1..], d, p);
      var head := seq(|ts[0].plays|, i requires 0 <= i < |ts[0].plays| => (ts[0].driveId, ts[0].plays[i]));
      assert Detected(ts) == head + Detected(ts[1..]);
      assert (d, p) in head <==> ts[0].driveId == d && p in ts[0].plays by {
        if p in ts[0].plays && ts[0].driveId == d {
          var i :| 0 <= i < |ts[0].plays| && ts[0].plays[i] == p;
          assert head[i] == (d, p);
        }
      }
      if exists k :: 0 <= k < |ts| && ts[k].driveId == d && p in ts[k].plays {
        var k :| 0 <= k < |ts| && ts[k].driveId == d && p in ts[k].plays;
        if k > 0 {
          assert ts[1..][k - 1] == ts[k];
        }
      }
    }
  }

  /** `[y[1] for y in detected_plays]`. */
  function DetectedPlays<P>(det: seq<(int, P)>): (r: seq<P>)
    ensures |r| == |det| && forall i :: 0 <= i < |det| ==> r[i] == det[i].1
  {
    seq(|det|, i requires 0 <= i < |det| => det[i].1)
  }

  /** `[x for x in scoring_plays if x not in known]`: membership is whole-play equality. */
  function Undetected<P(==)>(scoring: seq<P>, known: seq<P>): (r: seq<P>)
    ensures |r| <= |scoring|
    ensures forall i :: 0 <= i < |r| ==> r[i] in scoring && r[i] !in known
    ensures forall i :: 0 <= i < |scoring| && scoring[i] !in known ==> scoring[i] in r
  {
    if scoring == [] then []
    else
      var rest := Undetected(scoring[1..], known);
      assert forall i :: 1 <= i < |scoring| ==> scoring[i] == scoring[1..][i - 1];
      (if scoring[0] in known then [] else [scoring[0]]) + rest
  }

  /** The ids of a list of plays, in order. */
  function PlayIds<P>(ps: seq<P>, idOf: P -> int): (r: seq<int>)
    ensures |r| == |ps| && forall i :: 0 <= i < |ps| ==> r[i] == idOf(ps[i])
  {
    seq(|ps|, i requires 0 <= i < |ps| => idOf(ps[i]))
  }

  /** The play ids of the detected pairs, in order. */
  function IdsOf<P>(det: seq<(int, P)>, idOf: P -> int): (r: seq<int>)
    ensures |r| == |det| && forall i :: 0 <= i < |det| ==> r[i] == idOf(det[i].1)
  {
    PlayIds(DetectedPlays(det), idOf)
  }

  /** `[id for id in ids if id < pid]`. */
  function Below(ids: seq<int>, pid: int): (r: seq<int>)
    ensures forall x :: x in r <==> x in ids && x < pid
  {
    if ids == [] then []
    else
      assert forall x :: x in ids <==> x == ids[0] || x in ids[1..];
      (if ids[0] < pid then [ids[0]] else []) + Below(ids[1..], pid)
  }

  /** Python's `max` of a non-empty list. */
  function MaxOf(xs: seq<int>): (m: int)
    requires |xs| > 0
    ensures m in xs && forall x :: x in xs ==> x <= m
  {
    if |xs| == 1 then xs[0]
    else
      var m := MaxOf(xs[1..]);
      assert forall x :: x in xs ==> x == xs[0] || x in xs[1..];
      if xs[0] >= m then xs[0] else m
  }

  /** The position of the first occurrence of `m`: the `[0]` of a filtered list. */
  function FirstIndexOf(ids: seq<int>, m: int): (k: nat)
    requires m in ids
    ensures k < |ids| && ids[k] == m && forall j :: 0 <= j < k ==> ids[j] != m
  {
    if ids[0] == m then 0 else 1 + FirstIndexOf(ids[1..], m)
  }

  /** Python's list indexing `xs[i]` on a list of length `n`: a negative index counts
      from the end; anything else outside the list raises IndexError. */
  function PyIndex(i: int, n: nat): (r: Option<nat>)
    ensures r.Some? <==> -(n as int) <= i < n
    ensures r.Some? ==> r.value < n && (0 <= i ==> r.value == i) && (i < 0 ==> r.value == i + n)
  {
    if 0 <= i < n then Some(i) else if -(n as int) <= i < 0 then Some(i + n) else None
  }

  /** Which drive a missing play with id `pid` is appended to: the greatest detected id
      below `pid`, the drive id of the first detected pair holding that id, and the list
      position `drive_id - 1` among `n` drives. */
  function TargetIndex<P>(det: seq<(int, P)>, pid: int, n: nat, idOf: P -> int): (r: Result<nat, FeedError>)
    ensures r.Ok? ==> r.value < n
    ensures r.Err? ==> r.error == NoEarlierPlay || r.error == DriveIndexOutOfRange
  {
    var lower := Below(IdsOf(det, idOf), pid);
    if |lower| == 0 then Err(NoEarlierPlay)
    else
      var k := FirstIndexOf(IdsOf(det, idOf), MaxOf(lower));
      match PyIndex(det[k].0 - 1, n)
      case None => Err(DriveIndexOutOfRange)
      case Some(i) => Ok(i)
  }

  /** Pair `i` holds the greatest play id below `pid`, and no earlier pair holds that id. */
  predicate NearestEarlier<P>(det: seq<(int, P)>, pid: int, idOf: P -> int, i: int) {
    0 <= i < |det| && idOf(det[i].1) < pid &&
    (forall j :: 0 <= j < |det| && idOf(det[j].1) < pid ==> idOf(det[j].1) <= idOf(det[i].1)) &&
    forall j :: 0 <= j < i ==> idOf(det[j].1) != idOf(det[i].1)
  }

  /** The pair the target is read from is the nearest earlier one. */
  lemma NearestEarlierAt<P>(det: seq<(int, P)>, pid: int, idOf: P -> int)
    requires |Below(IdsOf(det, idOf), pid)| > 0
    ensures NearestEarlier(det, pid, idOf, FirstIndexOf(IdsOf(det, idOf), MaxOf(Below(IdsOf(det, idOf), pid))))
  {
    var ids := IdsOf(det, idOf);
    var lower := Below(ids, pid);
    var m := MaxOf(lower);
    assert m in lower;
    assert forall j :: 0 <= j < |det| && ids[j] < pid ==> ids[j] in lower;
  }

  /** No id lies below `pid` exactly when the filtered list is empty. */
  lemma BelowEmpty(ids: seq<int>, pid: int)
    ensures |Below(ids, pid)| == 0 <==> forall i :: 0 <= i < |ids| ==> ids[i] >= pid
  {
    if |Below(ids, pid)| > 0 {
      var x := Below(ids, pid)[0];
      assert x in Below(ids, pid);
    } else {
      forall i | 0 <= i < |ids| ensures ids[i] >= pid {
        assert ids[i] in ids;
      }
    }
  }

  /** Placement fails for want of an earlier play exactly when no detected play has a
      smaller id. */
  lemma TargetIndexNoEarlier<P>(det: seq<(int, P)>, pid: int, n: nat, idOf: P -> int)
    ensures TargetIndex(det, pid, n, idOf) == Err(NoEarlierPlay) <==> forall i :: 0 <= i < |det| ==> idOf(det[i].1) >= pid
  {
    var ids := IdsOf(det, idOf);
    BelowEmpty(ids, pid);
    assert (forall i :: 0 <= i < |det| ==> idOf(det[i].1) >= pid) <==> forall i :: 0 <= i < |ids| ==> ids[i] >= pid;
  }

  /** A placed play goes to the list position, by Python indexing, of `drive_id - 1` for
      the first detected pair whose play has the greatest id below `pid`. */
  lemma TargetIndexNearest<P>(det: seq<(int, P)>, pid: int, n: nat, idOf: P -> int)
    requires TargetIndex(det, pid, n, idOf).Ok?
    ensures exists i :: NearestEarlier(det, pid, idOf, i) && PyIndex(det[i].0 - 1, n) == Some(TargetIndex(det, pid, n, idOf).value)
  {
    var ids := IdsOf(det, idOf);
    var k := FirstIndexOf(ids, MaxOf(Below(ids, pid)));
    NearestEarlierAt(det, pid, idOf);
    assert NearestEarlier(det, pid, idOf, k);
  }

  /** `calculate_scoring` on a drive's tally: sets points and scoring team when a play
      scores, and otherwise leaves them. */
  function Rescore<P>(t: Tally<P>, entryOf: P -> ScoreEntry): (r: Tally<P>)
    ensures r.driveId == t.driveId && r.plays == t.plays
    ensures !AnyScores(Entries(t.plays, entryOf)) ==> r == t
    ensures AnyScores(Entries(t.plays, entryOf)) && Total(Entries(t.plays, entryOf)).None? ==> r == t
    ensures var es := Entries(t.plays, entryOf);
            AnyScores(es) && Total(es).Some? ==>
              r.points == Total(es) &&
              exists k :: 0 <= k < |es| && es[k].points != Some(0) && r.scoringTeam == es[k].team &&
                          forall j :: 0 <= j < k ==> es[j].points == Some(0)
  {
    match DriveScoring(Entries(t.plays, entryOf))
    case Scored(s, team, _) => t.(points := Some(s), scoringTeam := team)
    case _ => t
  }

  /** One round of the loop: the drives afterwards and the exception raised, if any. The
      play is appended before scoring is recomputed, so a failing sum leaves it appended. */
  function PlaceOne<P>(ts: seq<Tally<P>>, det: seq<(int, P)>, p: P, idOf: P -> int, entryOf: P -> ScoreEntry)
    : (r: (seq<Tally<P>>, Option<FeedError>))
    ensures |r.0| == |ts| && forall j :: 0 <= j < |ts| ==> r.0[j].driveId == ts[j].driveId
    ensures r.1.None? ==> TargetIndex(det, idOf(p), |ts|, idOf).Ok?
    ensures r.1.None? ==> var k := TargetIndex(det, idOf(p), |ts|, idOf).value;
                          r.0[k] == Rescore(ts[k].(plays := ts[k].plays + [p]), entryOf) &&
                          forall j :: 0 <= j < |ts| && j != k ==> r.0[j] == ts[j]
  {
    match TargetIndex(det, idOf(p), |ts|, idOf)
    case Err(e) => (ts, Some(e))
    case Ok(k) =>
      var t := ts[k].(plays := ts[k].plays + [p]);
      if DriveScoring(Entries(t.plays, entryOf)).SumFailed? then (ts[k := t], Some(UnscorablePoints))
      else (ts[k := Rescore(t, entryOf)], None)
  }

  /** One round of the loop, read off the drives it leaves: the target drive with the
      play appended and rescored, every other drive as it was. */
  lemma PlaceOneIs<P>(ts: seq<Tally<P>>, det: seq<(int, P)>, u: P, idOf: P -> int, entryOf: P -> ScoreEntry,
                      ts': seq<Tally<P>>)
    requires TargetIndex(det, idOf(u), |ts|, idOf).Ok?
    requires var k := TargetIndex(det, idOf(u), |ts|, idOf).value;
             |ts'| == |ts| && ts'[k] == Rescore(ts[k].(plays := ts[k].plays + [u]), entryOf) &&
             forall j :: 0 <= j < |ts| && j != k ==> ts'[j] == ts[j]
    ensures var k := TargetIndex(det, idOf(u), |ts|, idOf).value;
            PlaceOne(ts, det, u, idOf, entryOf) ==
              (ts', if DriveScoring(Entries(ts[k].plays + [u], entryOf)).SumFailed? then Some(UnscorablePoints) else None)
  {
    var k := TargetIndex(det, idOf(u), |ts|, idOf).value;
    var t := ts[k].(plays := ts[k].plays + [u]);
    if DriveScoring(Entries(t.plays, entryOf)).SumFailed? {
      assert ts' == ts[k := t];
    } else {
      assert ts' == ts[k := Rescore(t, entryOf)];
    }
  }

  /** The whole loop over the missing plays, stopping at the first exception. */
  function PlaceAll<P>(ts: seq<Tally<P>>, det: seq<(int, P)>, us: seq<P>, idOf: P -> int, entryOf: P -> ScoreEntry)
    : (r: (seq<Tally<P>>, Option<FeedError>))
    ensures |r.0| == |ts| && forall j :: 0 <= j < |ts| ==> r.0[j].driveId == ts[j].driveId
    decreases |us|
  {
    if us == [] then (ts, None)
    else
      var prev := PlaceAll(ts, det, us[..|us| - 1], idOf, entryOf);
      if prev.1.Some? then prev else PlaceOne(prev.0, det, us[|us| - 1], idOf, entryOf)
  }

  /** The missing plays that reconciliation appends to drive `k`, in order. */
  function PlacedIn<P>(us: seq<P>, det: seq<(int, P)>, n: nat, k: nat, idOf: P -> int): seq<P>
    decreases |us|
  {
    if us == [] then []
    else
      var u := us[|us| - 1];
      PlacedIn(us[..|us| - 1], det, n, k, idOf) + (if TargetIndex(det, idOf(u), n, idOf) == Ok(k) then [u] else [])
  }

  /** After a successful reconciliation every drive holds its old plays followed by exactly
      the missing plays whose target it is, so each missing play lands in one drive. */
  lemma {:induction false} PlaceAllAppends<P>(ts: seq<Tally<P>>, det: seq<(int, P)>, us: seq<P>,
                                              idOf: P -> int, entryOf: P -> ScoreEntry)
    requires PlaceAll(ts, det, us, idOf, entryOf).1.None?
    ensures var r := PlaceAll(ts, det, us, idOf, entryOf).0;
            forall k :: 0 <= k < |ts| ==> r[k].plays == ts[k].plays + PlacedIn(us, det, |ts|, k, idOf)
    ensures forall u :: u in us ==> TargetIndex(det, idOf(u), |ts|, idOf).Ok?
    decreases |us|
  {
    if us != [] {
      var init, u := us[..|us| - 1], us[|us| - 1];
      PlaceAllStep(ts, det, us, idOf, entryOf);
      PlaceAllAppends(ts, det, init, idOf, entryOf);
      var prev := PlaceAll(ts, det, init, idOf, entryOf).0;
      var target, t := PlaceOneUpdates(prev, det, u, idOf, entryOf);
      PlacedInStep(ts, prev, target, t, us, det, idOf);
      assert forall x :: x in us ==> x in init || x == u;
    }
  }

  /** One more placed play: the drive it targets gains it at the end, the others nothing. */
  lemma PlacedInStep<P>(ts: seq<Tally<P>>, prev: seq<Tally<P>>, target: nat, t: Tally<P>, us: seq<P>,
                        det: seq<(int, P)>, idOf: P -> int)
    requires us != [] && |prev| == |ts| && target < |ts|
    requires TargetIndex(det, idOf(us[|us| - 1]), |ts|, idOf) == Ok(target)
    requires t.plays == prev[target].plays + [us[|us| - 1]]
    requires forall k :: 0 <= k < |ts| ==> prev[k].plays == ts[k].plays + PlacedIn(us[..|us| - 1], det, |ts|, k, idOf)
    ensures forall k :: 0 <= k < |ts| ==> prev[target := t][k].plays == ts[k].plays + PlacedIn(us, det, |ts|, k, idOf)
  {
  }

  /** Inserting entries `u` inside a list adds their sum. */
  lemma TotalInsert(a: seq<ScoreEntry>, b: seq<ScoreEntry>, c: seq<ScoreEntry>, u: seq<ScoreEntry>)
    ensures Total(a + (b + u) + c) == Plus(Total(a + b + c), Total(u))
  {
    TotalAppend(a + b, c);
    TotalAppend(a, b);
    TotalAppend(a + (b + u), c);
    TotalAppend(a, b + u);
    TotalAppend(b, u);
    PlusShuffle(Total(a), Total(b), Total(c), Total(u));
  }

  lemma PlusShuffle(x: Option<int>, y: Option<int>, z: Option<int>, w: Option<int>)
    ensures Plus(Plus(x, Plus(y, w)), z) == Plus(Plus(Plus(x, y), z), w)
  {
  }

  /** A successful round replaces the target drive by one holding the play at its end. */
  lemma PlaceOneUpdates<P>(ts: seq<Tally<P>>, det: seq<(int, P)>, u: P, idOf: P -> int, entryOf: P -> ScoreEntry)
    returns (k: nat, t: Tally<P>)
    requires PlaceOne(ts, det, u, idOf, entryOf).1.None?
    ensures k < |ts| && t.plays == ts[k].plays + [u]
    ensures TargetIndex(det, idOf(u), |ts|, idOf) == Ok(k)
    ensures PlaceOne(ts, det, u, idOf, entryOf).0 == ts[k := t]
  {
    k := TargetIndex(det, idOf(u), |ts|, idOf).value;
    t := Rescore(ts[k].(plays := ts[k].plays + [u]), entryOf);
  }

  /** One successful round adds its play to the game's plays. */
  lemma PlaceOneAddsPlays<P>(ts: seq<Tally<P>>, det: seq<(int, P)>, u: P, idOf: P -> int, entryOf: P -> ScoreEntry)
    requires PlaceOne(ts, det, u, idOf, entryOf).1.None?
    ensures |AllPlays(PlaceOne(ts, det, u, idOf, entryOf).0)| == |AllPlays(ts)| + 1
    ensures multiset(AllPlays(PlaceOne(ts, det, u, idOf, entryOf).0)) == multiset(AllPlays(ts)) + multiset{u}
  {
    var k, t := PlaceOneUpdates(ts, det, u, idOf, entryOf);
    AllPlaysAround(ts, k, t);
    var a, b, c := AllPlays(ts[..k]), ts[k].plays, AllPlays(ts[k + 1..]);
    GrowAround(a, b, c, u, entryOf);
  }

  /** One successful round adds its play's points to the game's sum. */
  lemma PlaceOneAddsPoints<P>(ts: seq<Tally<P>>, det: seq<(int, P)>, u: P, idOf: P -> int, entryOf: P -> ScoreEntry)
    requires PlaceOne(ts, det, u, idOf, entryOf).1.None?
    ensures Total(Entries(AllPlays(PlaceOne(ts, det, u, idOf, entryOf).0), entryOf))
         == Plus(Total(Entries(AllPlays(ts), entryOf)), Total(Entries([u], entryOf)))
  {
    var k, t := PlaceOneUpdates(ts, det, u, idOf, entryOf);
    AllPlaysAround(ts, k, t);
    var a, b, c := AllPlays(ts[..k]), ts[k].plays, AllPlays(ts[k + 1..]);
    GrowAround(a, b, c, u, entryOf);
  }

  /** Adding `u` after the middle part of a three-part list. */
  lemma GrowAround<P>(a: seq<P>, b: seq<P>, c: seq<P>, u: P, entryOf: P -> ScoreEntry)
    ensures |a + (b + [u]) + c| == |a + b + c| + 1
    ensures multiset(a + (b + [u]) + c) == multiset(a + b + c) + multiset{u}
    ensures Total(Entries(a + (b + [u]) + c, entryOf)) == Plus(Total(Entries(a + b + c, entryOf)), Total(Entries([u], entryOf)))
  {
    EntriesAppend(a + b, c, entryOf);
    EntriesAppend(a, b, entryOf);
    EntriesAppend(a + (b + [u]), c, entryOf);
    EntriesAppend(a, b + [u], entryOf);
    EntriesAppend(b, [u], entryOf);
    TotalInsert(Entries(a, entryOf), Entries(b, entryOf), Entries(c, entryOf), Entries([u], entryOf));
  }

  lemma TotalSnoc<P>(us: seq<P>, entryOf: P -> ScoreEntry)
    requires us != []
    ensures Total(Entries(us, entryOf)) == Plus(Total(Entries(us[..|us| - 1], entryOf)), Total(Entries([us[|us| - 1]], entryOf)))
  {
    assert us == us[..|us| - 1] + [us[|us| - 1]];
    EntriesAppend(us[..|us| - 1], [us[|us| - 1]], entryOf);
    TotalAppend(Entries(us[..|us| - 1], entryOf), Entries([us[|us| - 1]], entryOf));
  }

  lemma MultisetSnoc<P>(us: seq<P>)
    requires us != []
    ensures multiset(us) == multiset(us[..|us| - 1]) + multiset{us[|us| - 1]}
  {
    assert us == us[..|us| - 1] + [us[|us| - 1]];
  }

  lemma MultisetAssoc<P>(a: multiset<P>, b: multiset<P>, c: multiset<P>)
    ensures a + b + c == a + (b + c)
  {
  }

  /** A successful run of the loop is a successful run on all but the last missing play
      followed by a successful round for the last one. */
  lemma PlaceAllStep<P>(ts: seq<Tally<P>>, det: seq<(int, P)>, us: seq<P>, idOf: P -> int, entryOf: P -> ScoreEntry)
    requires us != [] && PlaceAll(ts, det, us, idOf, entryOf).1.None?
    ensures var prev := PlaceAll(ts, det, us[..|us| - 1], idOf, entryOf);
            var last := PlaceOne(prev.0, det, us[|us| - 1], idOf, entryOf);
            prev.1.None? && last.1.None? && last.0 == PlaceAll(ts, det, us, idOf, entryOf).0
  {
  }

  /** One more round of the loop: the next missing play is placed unless an earlier
      round raised. */
  lemma PlaceAllSnoc<P>(ts: seq<Tally<P>>, det: seq<(int, P)>, us: seq<P>, i: nat, idOf: P -> int, entryOf: P -> ScoreEntry)
    requires i < |us|
    ensures var prev := PlaceAll(ts, det, us[..i], idOf, entryOf);
            PlaceAll(ts, det, us[..i + 1], idOf, entryOf) ==
              if prev.1.Some? then prev else PlaceOne(prev.0, det, us[i], idOf, entryOf)
  {
    assert us[..i + 1][..i] == us[..i];
  }

  /** The loop stops at its first exception: once a prefix of the missing plays fails,
      the whole loop ends in the state and the error that prefix left. */
  lemma {:induction false} PlaceAllStops<P>(ts: seq<Tally<P>>, det: seq<(int, P)>, us: seq<P>, m: nat,
                                            idOf: P -> int, entryOf: P -> ScoreEntry)
    requires m <= |us| && PlaceAll(ts, det, us[..m], idOf, entryOf).1.Some?
    ensures PlaceAll(ts, det, us, idOf, entryOf) == PlaceAll(ts, det, us[..m], idOf, entryOf)
    decreases |us| - m
  {
    if m == |us| {
      assert us[..m] == us;
    } else {
      var init := us[..|us| - 1];
      assert init[..m] == us[..m];
      PlaceAllStops(ts, det, init, m, idOf, entryOf);
    }
  }

  /** After a successful reconciliation the game holds its old plays plus the missing
      ones: the play count grows by their number and the multiset of plays by them. */
  lemma {:induction false} PlaceAllAddsPlays<P>(ts: seq<Tally<P>>, det: seq<(int, P)>, us: seq<P>,
                                          idOf: P -> int, entryOf: P -> ScoreEntry)
    requires PlaceAll(ts, det, us, idOf, entryOf).1.None?
    ensures |AllPlays(PlaceAll(ts, det, us, idOf, entryOf).0)| == |AllPlays(ts)| + |us|
    ensures multiset(AllPlays(PlaceAll(ts, det, us, idOf, entryOf).0)) == multiset(AllPlays(ts)) + multiset(us)
    decreases |us|
  {
    if us != [] {
      var init, u := us[..|us| - 1], us[|us| - 1];
      PlaceAllStep(ts, det, us, idOf, entryOf);
      var prev := PlaceAll(ts, det, init, idOf, entryOf).0;
      PlaceOneAddsPlays(prev, det, u, idOf, entryOf);
      PlaceAllAddsPlays(ts, det, init, idOf, entryOf);
      MultisetSnoc(us);
      MultisetAssoc(multiset(AllPlays(ts)), multiset(init), multiset{u});
    }
  }

  /** After a successful reconciliation the sum of all play points has grown by the
      missing plays' points. */
  lemma {:induction false} PlaceAllAddsPoints<P>(ts: seq<Tally<P>>, det: seq<(int, P)>, us: seq<P>,
                                                idOf: P -> int, entryOf: P -> ScoreEntry)
    requires PlaceAll(ts, det, us, idOf, entryOf).1.None?
    ensures Total(Entries(AllPlays(PlaceAll(ts, det, us, idOf, entryOf).0), entryOf))
         == Plus(Total(Entries(AllPlays(ts), entryOf)), Total(Entries(us, entryOf)))
    decreases |us|
  {
    if us != [] {
      var init, u := us[..|us| - 1], us[|us| - 1];
      PlaceAllStep(ts, det, us, idOf, entryOf);
      var prev := PlaceAll(ts, det, init, idOf, entryOf).0;
      PlaceOneAddsPoints(prev, det, u, idOf, entryOf);
      PlaceAllAddsPoints(ts, det, init, idOf, entryOf);
      TotalSnoc(us, entryOf);
      PlusAssoc(Total(Entries(AllPlays(ts), entryOf)), Total(Entries(init, entryOf)), Total(Entries([u], entryOf)));
    }
  }

  /** Each missing play is placed in the drive its target index names and in no other. */
  lemma {:induction false} PlacedInMember<P>(us: seq<P>, det: seq<(int, P)>, n: nat, k: nat, idOf: P -> int, u: P)
    ensures u in PlacedIn(us, det, n, k, idOf) <==> u in us && TargetIndex(det, idOf(u), n, idOf) == Ok(k)
    decreases |us|
  {
    if us != [] {
      var init := us[..|us| - 1];
      PlacedInMember(init, det, n, k, idOf, u);
      assert us == init + [us[|us| - 1]];
    }
  }

  /** A drive's points agree with its plays: their sum when a play scores, absent
      otherwise (the state `calculate_scoring` leaves a freshly built drive in). */
  predicate Consistent<P>(t: Tally<P>, entryOf: P -> ScoreEntry) {
    var es := Entries(t.plays, entryOf);
    t.points == if AnyScores(es) then Total(es) else None
  }

  /** Every drive is consistent. */
  predicate AllConsistent<P>(ts: seq<Tally<P>>, entryOf: P -> ScoreEntry) {
    forall k :: 0 <= k < |ts| ==> Consistent(ts[k], entryOf)
  }

  /** A successful round keeps every drive consistent. */
  lemma PlaceOneKeepsConsistent<P>(ts: seq<Tally<P>>, det: seq<(int, P)>, u: P, idOf: P -> int, entryOf: P -> ScoreEntry)
    requires AllConsistent(ts, entryOf)
    requires PlaceOne(ts, det, u, idOf, entryOf).1.None?
    ensures AllConsistent(PlaceOne(ts, det, u, idOf, entryOf).0, entryOf)
  {
    var r := PlaceOne(ts, det, u, idOf, entryOf).0;
    var k := TargetIndex(det, idOf(u), |ts|, idOf).value;
    var t := ts[k].(plays := ts[k].plays + [u]);
    var old_es, es := Entries(ts[k].plays, entryOf), Entries(t.plays, entryOf);
    EntriesAppend(ts[k].plays, [u], entryOf);
    assert es == old_es + [entryOf(u)];
    assert AnyScores(old_es) ==> AnyScores(es) by {
      if AnyScores(old_es) {
        var i :| 0 <= i < |old_es| && old_es[i].points.Some? && old_es[i].points.value != 0;
        assert es[i] == old_es[i];
      }
    }
    assert Consistent(r[k], entryOf);
  }

  /** A successful reconciliation keeps every drive consistent. */
  lemma {:induction false} PlaceAllKeepsConsistent<P>(ts: seq<Tally<P>>, det: seq<(int, P)>, us: seq<P>,
                                                     idOf: P -> int, entryOf: P -> ScoreEntry)
    requires AllConsistent(ts, entryOf)
    requires PlaceAll(ts, det, us, idOf, entryOf).1.None?
    ensures AllConsistent(PlaceAll(ts, det, us, idOf, entryOf).0, entryOf)
    decreases |us|
  {
    if us != [] {
      PlaceAllStep(ts, det, us, idOf, entryOf);
      var prev := PlaceAll(ts, det, us[..|us| - 1], idOf, entryOf).0;
      PlaceAllKeepsConsistent(ts, det, us[..|us| - 1], idOf, entryOf);
      PlaceOneKeepsConsistent(prev, det, us[|us| - 1], idOf, entryOf);
    }
  }

  /** The points of a drive as exported, with an absent value counted as none. */
  function PointsOrZero(points: Option<int>): int {
    if points.Some? then points.value else 0
  }

  /** The sum over drives of their recorded points. */
  function DrivePointsSum<P>(ts: seq<Tally<P>>): int {
    if ts == [] then 0 else PointsOrZero(ts[0].points) + DrivePointsSum(ts[1..])
  }

  /** For consistent drives whose plays all have points, the sum over all plays equals
      the sum of the drives' recorded points. */
  lemma {:induction false} TotalByDrives<P>(ts: seq<Tally<P>>, entryOf: P -> ScoreEntry)
    requires AllConsistent(ts, entryOf)
    requires Total(Entries(AllPlays(ts), entryOf)).Some?
    ensures Total(Entries(AllPlays(ts), entryOf)) == Some(DrivePointsSum(ts))
  {
    if ts != [] {
      var es0, rest := Entries(ts[0].plays, entryOf), Entries(AllPlays(ts[1..]), entryOf);
      EntriesAppend(ts[0].plays, AllPlays(ts[1..]), entryOf);
      TotalAppend(es0, rest);
      assert forall k :: 1 <= k < |ts| ==> ts[1..][k - 1] == ts[k];
      TotalByDrives(ts[1..], entryOf);
      assert Consistent(ts[0], entryOf);
      if !AnyScores(es0) {
        TotalOfNoScore(es0);
      }
    }
  }

  /** `Game.check_score_integrity`: the sum of all play points against the final score,
      raising when a play's points are absent. */
  function CheckScoreIntegrity<P>(ts: seq<Tally<P>>, home: int, away: int, entryOf: P -> ScoreEntry)
    : (r: Result<bool, FeedError>)
    ensures r.Err? <==> SomeUnscored(AllPlays(ts), entryOf)
    ensures r == Ok(true) <==> Total(Entries(AllPlays(ts), entryOf)) == Some(home + away)
  {
    var total := Total(Entries(AllPlays(ts), entryOf));
    TotalOfEntries(AllPlays(ts), entryOf);
    if total.None? then Err(UnscorablePoints) else Ok(total.value == home + away)
  }

  /** Some play has no points. */
  predicate SomeUnscored<P>(ps: seq<P>, entryOf: P -> ScoreEntry) {
    exists i :: 0 <= i < |ps| && entryOf(ps[i]).points.None?
  }

  /** The sum over some plays is absent exactly when one of them has no points. */
  lemma TotalOfEntries<P>(ps: seq<P>, entryOf: P -> ScoreEntry)
    ensures Total(Entries(ps, entryOf)).None? <==> SomeUnscored(ps, entryOf)
  {
    var es := Entries(ps, entryOf);
    if Total(es).None? {
      var i :| 0 <= i < |es| && es[i].points.None?;
      assert entryOf(ps[i]).points.None?;
    }
    if i :| 0 <= i < |ps| && entryOf(ps[i]).points.None? {
      assert es[i].points.None?;
    }
  }

  /** With consistent drives, the integrity check passes exactly when the drives' recorded
      points add up to the final score. */
  lemma IntegrityByDrives<P>(ts: seq<Tally<P>>, home: int, away: int, entryOf: P -> ScoreEntry)
    requires AllConsistent(ts, entryOf)
    requires CheckScoreIntegrity(ts, home, away, entryOf).Ok?
    ensures CheckScoreIntegrity(ts, home, away, entryOf) == Ok(true) <==> DrivePointsSum(ts) == home + away
  {
    TotalByDrives(ts, entryOf);
  }

  /** `_remedy_incorrect_scoreline` once the scoring plays are built: detect the plays of
      all drives, keep the scoring plays not among them, and place each one. */
  function Remedy<P(==)>(ts: seq<Tally<P>>, scoring: seq<P>, idOf: P -> int, entryOf: P -> ScoreEntry)
    : (r: (seq<Tally<P>>, Option<FeedError>))
  {
    var det := Detected(ts);
    PlaceAll(ts, det, Undetected(scoring, DetectedPlays(det)), idOf, entryOf)
  }

  /** After a successful remedy the integrity check passes exactly when the missing plays'
      points make up the difference between the plays' sum and the final score. */
  lemma RemedyClosesGap<P>(ts: seq<Tally<P>>, scoring: seq<P>, home: int, away: int,
                           idOf: P -> int, entryOf: P -> ScoreEntry)
    requires Remedy(ts, scoring, idOf, entryOf).1.None?
    requires CheckScoreIntegrity(ts, home, away, entryOf).Ok?
    ensures var det := Detected(ts);
            var us := Undetected(scoring, DetectedPlays(det));
            var r := Remedy(ts, scoring, idOf, entryOf).0;
            CheckScoreIntegrity(r, home, away, entryOf) == Ok(true) <==>
            Total(Entries(us, entryOf)).Some? &&
            Total(Entries(AllPlays(ts), entryOf)).value + Total(Entries(us, entryOf)).value == home + away
  {
    var det := Detected(ts);
    var us := Undetected(scoring, DetectedPlays(det));
    PlaceAllAddsPoints(ts, det, us, idOf, entryOf);
  }

  /** The integrity check of `get_game_details` and, when it fails, reconciliation with
      the game's scoring plays (`scoring`, or the exception building them raised) followed
      by a second check. The drives afterwards, and either the first exception raised or
      the results of the first check and of the last check made. */
  function CheckAndRemedy<P(==)>(ts: seq<Tally<P>>, scoring: Result<seq<P>, FeedError>, home: int, away: int,
                                 idOf: P -> int, entryOf: P -> ScoreEntry)
    : (r: (seq<Tally<P>>, Result<(bool, bool), FeedError>))
    ensures var c1 := CheckScoreIntegrity(ts, home, away, entryOf);
            c1 != Ok(false) ==> r.0 == ts && r.1 == (if c1.Err? then Err(c1.error) else Ok((true, true)))
    ensures var c1 := CheckScoreIntegrity(ts, home, away, entryOf);
            c1 == Ok(false) && scoring.Err? ==> r == (ts, Err(scoring.error))
    ensures var c1 := CheckScoreIntegrity(ts, home, away, entryOf);
            c1 == Ok(false) && scoring.Ok? ==>
              var placed := Remedy(ts, scoring.value, idOf, entryOf);
              r.0 == placed.0 &&
              r.1 == (if placed.1.Some? then Err(placed.1.value)
                      else var c2 := CheckScoreIntegrity(placed.0, home, away, entryOf);
                           if c2.Err? then Err(c2.error) else Ok((false, c2.value)))
    ensures r.1.Ok? ==> (r.1.value.1 <==> Total(Entries(AllPlays(r.0), entryOf)) == Some(home + away))
    ensures r.1.Ok? && r.1.value.0 ==> r.1.value.1
  {
    match CheckScoreIntegrity(ts, home, away, entryOf)
    case Err(e) => (ts, Err(e))
    case Ok(first) =>
      if first then (ts, Ok((true, true)))
      else if scoring.Err? then (ts, Err(scoring.error))
      else
        var placed := Remedy(ts, scoring.value, idOf, entryOf);
        if placed.1.Some? then (placed.0, Err(placed.1.value))
        else match CheckScoreIntegrity(placed.0, home, away, entryOf)
          case Err(e) => (placed.0, Err(e))
          case Ok(last) => (placed.0, Ok((false, last)))
  }

  /** Starting from consistent drives, the drives the check and reconciliation leave are
      consistent, and the last check passes exactly when their recorded points add up to
      the final score. */
  lemma CheckAndRemedyConsistent<P>(ts: seq<Tally<P>>, scoring: Result<seq<P>, FeedError>, home: int, away: int,
                                        idOf: P -> int, entryOf: P -> ScoreEntry)
    requires AllConsistent(ts, entryOf)
    requires CheckAndRemedy(ts, scoring, home, away, idOf, entryOf).1.Ok?
    ensures var r := CheckAndRemedy(ts, scoring, home, away, idOf, entryOf);
            AllConsistent(r.0, entryOf) && (r.1.value.1 <==> DrivePointsSum(r.0) == home + away)
  {
    var r := CheckAndRemedy(ts, scoring, home, away, idOf, entryOf);
    if CheckScoreIntegrity(ts, home, away, entryOf) == Ok(false) {
      var det := Detected(ts);
      PlaceAllKeepsConsistent(ts, det, Undetected(scoring.value, DetectedPlays(det)), idOf, entryOf);
    }
    IntegrityByDrives(r.0, home, away, entryOf);
  }

  /** The duplicate scan at the end of `get_game_details`: for each drive, whether the
      warning is logged because its distinct play ids are fewer than its plays. */
  function DuplicateFlags<P>(ts: seq<Tally<P>>, idOf: P -> int): (r: seq<bool>)
    ensures |r| == |ts|
  {
    seq(|ts|, k requires 0 <= k < |ts| => HasDuplicateIds(PlayIds(ts[k].plays, idOf)))
  }

  /** A drive is flagged exactly when two of its plays share an id. */
  lemma DuplicateFlagsIff<P>(ts: seq<Tally<P>>, idOf: P -> int, k: nat)
    requires k < |ts|
    ensures DuplicateFlags(ts, idOf)[k] <==>
            exists i, j :: 0 <= i < j < |ts[k].plays| && idOf(ts[k].plays[i]) == idOf(ts[k].plays[j])
  {
    var ids := PlayIds(ts[k].plays, idOf);
    DuplicateIdsIff(ids);
    if DuplicateFlags(ts, idOf)[k] {
      var i, j :| 0 <= i < j < |ids| && ids[i] == ids[j];
      assert idOf(ts[k].plays[i]) == idOf(ts[k].plays[j]);
    }
  }
}
