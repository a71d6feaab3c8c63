/** The worst peak-to-trough fall of an equity curve, in one pass. */
module Drawdown {
  import opened Types

  /** `depth` is zero when the curve never falls; `recovered` is the first return to the peak after the
      trough, and `underWater` counts sessions from the peak to there, or to the end. */
  datatype Fall = NoFall | Fall(depth: real, peak: nat, trough: nat, recovered: Option<nat>, underWater: nat)

  /** No later point lies further below an earlier one. */
  ghost predicate Deepest(equity: seq<real>, depth: real) {
    forall i, j :: 0 <= i <= j < |equity| ==> equity[j] - equity[i] >= depth
  }

  ghost predicate Highest(equity: seq<real>, n: int, at: int) {
    0 <= at < n <= |equity| && forall i :: 0 <= i < n ==> equity[i] <= equity[at]
  }

  lemma DeeperNext(equity: seq<real>, i: nat, peak: nat, worst: real)
    requires i < |equity| && worst <= 0.0 && Deepest(equity[..i], worst) && Highest(equity, i + 1, peak)
    ensures var fell := equity[i] - equity[peak]; Deepest(equity[..i + 1], if fell < worst then fell else worst)
  {
    var s := equity[..i + 1];
    forall a, b | 0 <= a <= b < i ensures s[b] - s[a] >= worst {
      assert equity[..i][b] - equity[..i][a] >= worst;
    }
  }

  lemma NothingFalls(equity: seq<real>)
    ensures Deepest(equity[..0], 0.0)
  {
  }

  lemma FallsThere(equity: seq<real>, i: nat, j: nat)
    requires i <= j < |equity| && equity[j] - equity[i] < 0.0
    ensures !Deepest(equity, 0.0)
  {
  }

  method Worst(equity: seq<real>) returns (fall: Fall)
    ensures fall.NoFall? <==> Deepest(equity, 0.0)
    ensures fall.Fall? ==>
              && fall.peak < fall.trough < |equity| && fall.depth == equity[fall.trough] - equity[fall.peak] < 0.0
              && Deepest(equity, fall.depth) && Highest(equity, fall.trough + 1, fall.peak)
    ensures fall.Fall? ==>
              match fall.recovered
              case Some(r) => fall.trough < r < |equity| && equity[r] >= equity[fall.peak] && fall.underWater == r - fall.peak
                              && forall j :: fall.trough < j < r ==> equity[j] < equity[fall.peak]
              case None => fall.underWater == |equity| - fall.peak
                           && forall j :: fall.trough < j < |equity| ==> equity[j] < equity[fall.peak]
  {
    hide Deepest;
    NothingFalls(equity);
    if equity == [] { return NoFall; }
    var peak := 0;
    var worst, worstAt, worstPeak := 0.0, 0, 0;
    for i := 0 to |equity|
      invariant i == 0 ==> peak == 0
      invariant i > 0 ==> Highest(equity, i, peak)
      invariant worst <= 0.0 && Deepest(equity[..i], worst)
      invariant worst < 0.0 ==> worstPeak < worstAt < i && worst == equity[worstAt] - equity[worstPeak] && Highest(equity, worstAt + 1, worstPeak)
    {
      if equity[i] > equity[peak] { peak := i; }
      var fell := equity[i] - equity[peak];
      DeeperNext(equity, i, peak, worst);
      if fell < worst {
        worst, worstAt, worstPeak := fell, i, peak;
      }
    }
    assert equity[..|equity|] == equity;
    if worst >= 0.0 { return NoFall; }
    FallsThere(equity, worstPeak, worstAt);
    var recovered := FirstReturn(equity, worstPeak, worstAt);
    return Fall(worst, worstPeak, worstAt, recovered, if recovered.Some? then recovered.value - worstPeak else |equity| - worstPeak);
  }

  /** The first point after the trough back at the peak. */
  method FirstReturn(equity: seq<real>, peak: nat, trough: nat) returns (r: Option<nat>)
    requires peak < trough < |equity|
    ensures r.Some? ==> trough < r.value < |equity| && equity[r.value] >= equity[peak]
    ensures forall j :: trough < j < (if r.Some? then r.value else |equity|) ==> equity[j] < equity[peak]
  {
    for j := trough + 1 to |equity|
      invariant forall k :: trough < k < j ==> equity[k] < equity[peak]
    {
      if equity[j] >= equity[peak] { return Some(j); }
    }
    return None;
  }
}
