/** The duplicate-play scan run on every drive once the game is built. */
module Duplicates {

  /** The distinct ids of a drive's plays: `set(x.play_id for x in drive.plays)`. */
  function DistinctIds(ids: seq<int>): set<int> {
    set x | x in ids
  }

  /** The scan's test `len(distinct_plays) != len(drive.plays)`. */
  predicate HasDuplicateIds(ids: seq<int>) {
    |DistinctIds(ids)| != |ids|
  }

  /** No id occurs twice. */
  predicate AllDistinct(ids: seq<int>) {
    forall i, j :: 0 <= i < j < |ids| ==> ids[i] != ids[j]
  }

  /** A list has at most as many distinct members as entries, and exactly as many when
      no entry repeats. */
  lemma {:induction false} DistinctCount(ids: seq<int>)
    ensures |DistinctIds(ids)| <= |ids|
    ensures |DistinctIds(ids)| == |ids| <==> AllDistinct(ids)
  {
    if ids != [] {
      var n := |ids|;
      var init, x := ids[..n - 1], ids[n - 1];
      assert ids == init + [x];
      assert DistinctIds(ids) == DistinctIds(init) + {x};
      DistinctCount(init);
      if x in init {
        var j :| 0 <= j < n - 1 && init[j] == x;
        assert ids[j] == ids[n - 1];
        assert DistinctIds(ids) == DistinctIds(init);
      } else {
        assert x !in DistinctIds(init);
        assert AllDistinct(ids) <==> AllDistinct(init) by {
          if AllDistinct(init) {
            forall i, j | 0 <= i < j < n ensures ids[i] != ids[j] {
              if j == n - 1 {
                assert ids[i] == init[i];
              } else {
                assert ids[i] == init[i] && ids[j] == init[j];
              }
            }
          }
          if AllDistinct(ids) {
            forall i, j | 0 <= i < j < n - 1 ensures init[i] != init[j] {
              assert ids[i] == init[i] && ids[j] == init[j];
            }
          }
        }
      }
    }
  }

  /** The warning fires exactly when two plays of the drive share an id. */
  lemma DuplicateIdsIff(ids: seq<int>)
    ensures HasDuplicateIds(ids) <==> exists i, j :: 0 <= i < j < |ids| && ids[i] == ids[j]
  {
    DistinctCount(ids);
  }
}
