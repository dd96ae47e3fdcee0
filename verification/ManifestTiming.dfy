/** The two clocks of a manifest: the validator sums every dt, the executor skips the first:
    firmware/esp32/src/validator.cpp and executor.cpp. */
module ManifestTiming {
  import opened Manifests
  import opened Validators

  lemma {:induction false} ValidatorCountsFirstDt(ws: seq<Waypoint>)
    requires ws != []
    ensures TotalTime(ws) == ws[0].dt + PassLength(ws)
  {
    var n := |ws| - 1;
    var init := ws[..n];
    if n == 0 {
      assert init == [];
    } else {
      ValidatorCountsFirstDt(init);
      OffsetOfPrefix(ws, n, n - 1);
    }
  }

  lemma {:induction false} OffsetOfPrefix(ws: seq<Waypoint>, n: nat, k: nat)
    requires k < n <= |ws|
    ensures Offset(ws[..n], k) == Offset(ws, k)
  {
    if k > 0 { OffsetOfPrefix(ws, n, k - 1); }
  }
}
