/** Properties that single steps can break and mend. */
module Histories {

  /** ok[k] says whether the property holds before step k. If each step leaves it true
      exactly when it mends it, or finds it true and does not break it, then at the end it
      holds exactly when every break was mended later. */
  lemma {:induction false} BreaksMended(ok: seq<bool>, breaks: seq<bool>, mends: seq<bool>)
    requires |ok| == |breaks| + 1 && |mends| == |breaks| && ok[0]
    requires forall k :: 0 <= k < |breaks| ==> ok[k + 1] == (mends[k] || (ok[k] && !breaks[k]))
    ensures ok[|breaks|] <==>
            forall k :: 0 <= k < |breaks| && breaks[k] && !mends[k] ==> exists m :: k < m < |mends| && mends[m]
    decreases |breaks|
  {
    var n := |breaks|;
    if n > 0 {
      var ok0, breaks0, mends0 := ok[..n], breaks[..n - 1], mends[..n - 1];
      BreaksMended(ok0, breaks0, mends0);
      if mends[n - 1] {
        assert n - 1 < |mends| && mends[n - 1];
      } else if !ok[n - 1] {
        var k :| 0 <= k < n - 1 && breaks0[k] && !mends0[k] && forall m :: k < m < n - 1 ==> !mends0[m];
        assert breaks[k] && !mends[k];
        forall m | k < m < n ensures !mends[m] {
          if m < n - 1 {
            assert !mends0[m];
          }
        }
      } else {
        forall k | 0 <= k < n - 1 && breaks[k] && !mends[k] ensures exists m :: k < m < n && mends[m] {
          assert breaks0[k] && !mends0[k];
          var m :| k < m < n - 1 && mends0[m];
          assert mends[m];
        }
      }
    }
  }
}
