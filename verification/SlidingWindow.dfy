/** Time stamps inside a window that ends now. */
module SlidingWindow {

  // [t for t in stamps if now - t <= window]
  function Within(ts: seq<real>, window: real, now: real): seq<real> {
    if ts == [] then []
    else Within(ts[..|ts| - 1], window, now) + if now - ts[|ts| - 1] <= window then [ts[|ts| - 1]] else []
  }

  lemma {:induction false} WithinKeeps(ts: seq<real>, window: real, now: real)
    ensures |Within(ts, window, now)| <= |ts|
    ensures (forall t <- ts :: now - t <= window) ==> Within(ts, window, now) == ts
    ensures forall t :: t in Within(ts, window, now) <==> t in ts && now - t <= window
  {
    if ts != [] {
      var l := |ts| - 1;
      WithinKeeps(ts[..l], window, now);
      assert ts == ts[..l] + [ts[l]];
      assert forall t :: t in ts <==> t in ts[..l] || t == ts[l];
      assert ts[l] in ts;
      assert Within(ts[..l], window, now) + [] == Within(ts[..l], window, now);
    }
  }

  /** Pruning on the way never changes a later count over the same window. */
  lemma {:induction false} PruningLosesNothing(ts: seq<real>, window: real, now: real, later: real)
    requires now <= later
    ensures Within(Within(ts, window, now), window, later) == Within(ts, window, later)
  {
    if ts != [] {
      var l := |ts| - 1;
      PruningLosesNothing(ts[..l], window, now, later);
      var kept := Within(ts[..l], window, now);
      if now - ts[l] <= window {
        assert (kept + [ts[l]])[..|kept|] == kept;
        assert Within(ts, window, now) == kept + [ts[l]];
      } else {
        assert Within(ts, window, now) == kept;
        assert Within(ts, window, later) == Within(ts[..l], window, later);
      }
    }
  }
}
