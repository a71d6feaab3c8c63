/** Indicators over bar closes: computed over the whole series, readable only through closed bars. */
module Indicators {
  import opened Types
  import opened Sessions
  import opened Bars

  function Closes(bars: seq<Bar>): (r: seq<real>)
    ensures |r| == |bars|
  {
    seq(|bars|, i requires 0 <= i < |bars| => bars[i].close as real / 100.0)
  }

  function WindowSum(xs: seq<real>, lo: nat, hi: nat): real
    requires lo <= hi <= |xs|
  {
    if lo == hi then 0.0 else WindowSum(xs, lo, hi - 1) + xs[hi - 1]
  }

  /** Sum of squared distances from `mean`. */
  function WindowSpread(xs: seq<real>, lo: nat, hi: nat, mean: real): real
    requires lo <= hi <= |xs|
  {
    if lo == hi then 0.0 else WindowSpread(xs, lo, hi - 1, mean) + (xs[hi - 1] - mean) * (xs[hi - 1] - mean)
  }

  /** The average of the `period` closes ending at `i`; nothing while warming up. */
  function MeanAt(xs: seq<real>, period: nat, i: nat): Option<real>
    requires period > 0 && i < |xs|
  {
    if i + 1 < period then None else Some(WindowSum(xs, i + 1 - period, i + 1) / period as real)
  }

  lemma {:induction false} WindowShift(xs: seq<real>, lo: nat, hi: nat)
    requires lo < hi <= |xs|
    ensures WindowSum(xs, lo, hi) == xs[lo] + WindowSum(xs, lo + 1, hi)
  {
    if lo + 1 < hi {
      WindowShift(xs, lo, hi - 1);
    }
  }

  /** The moving average keeps one running sum; every value equals the direct window average. */
  method Sma(xs: seq<real>, period: nat) returns (out: seq<Option<real>>)
    requires period > 0
    ensures |out| == |xs| && forall i :: 0 <= i < |xs| ==> out[i] == MeanAt(xs, period, i)
  {
    out := [];
    var running := 0.0;
    var i := 0;
    while i < |xs|
      invariant 0 <= i <= |xs| && |out| == i
      invariant running == WindowSum(xs, if i < period then 0 else i - period, i)
      invariant forall j :: 0 <= j < i ==> out[j] == MeanAt(xs, period, j)
    {
      running := running + xs[i];
      if i >= period {
        WindowShift(xs, i - period, i + 1);
        running := running - xs[i - period];
      }
      out := out + [if i + 1 >= period then Some(running / period as real) else None];
      i := i + 1;
    }
  }

  datatype Bands = Bands(middle: real, upper: real, lower: real)

  function BandsAround(mean: real, k: real, sd: real): Bands {
    Bands(mean, mean + k * sd, mean - k * sd)
  }

  /** Bands at `k` standard deviations; `root` stands for the square root. */
  function BandsAt(xs: seq<real>, period: nat, k: real, root: real -> real, i: nat): Option<Bands>
    requires period > 0 && i < |xs|
  {
    match MeanAt(xs, period, i)
    case None => None
    case Some(mean) =>
      var sd := root(WindowSpread(xs, i + 1 - period, i + 1, mean) / period as real);
      Some(BandsAround(mean, k, sd))
  }

  lemma BandsFrom(xs: seq<real>, period: nat, k: real, root: real -> real, i: nat, mean: real, spread: real)
    requires period > 0 && i < |xs| && MeanAt(xs, period, i) == Some(mean)
    requires spread == WindowSpread(xs, i + 1 - period, i + 1, mean)
    ensures var sd := root(spread / period as real);
            BandsAt(xs, period, k, root, i) == Some(BandsAround(mean, k, sd))
  {
    assert BandsAt(xs, period, k, root, i)
        == Some(BandsAround(mean, k, root(WindowSpread(xs, i + 1 - period, i + 1, mean) / period as real)));
  }

  method Bollinger(xs: seq<real>, period: nat, k: real, root: real -> real) returns (out: seq<Option<Bands>>)
    requires period > 0
    ensures |out| == |xs| && forall i :: 0 <= i < |xs| ==> out[i] == BandsAt(xs, period, k, root, i)
    ensures forall i :: 0 <= i < |xs| && out[i].Some? ==> MeanAt(xs, period, i) == Some(out[i].value.middle)
  {
    out := [];
    var i := 0;
    while i < |xs|
      invariant 0 <= i <= |xs| && |out| == i
      invariant forall j :: 0 <= j < i ==> out[j] == BandsAt(xs, period, k, root, j)
    {
      if i + 1 < period {
        out := out + [None];
      } else {
        var start := i + 1 - period;
        var mean := 0.0;
        var j := start;
        while j <= i
          invariant start <= j <= i + 1 && mean == WindowSum(xs, start, j)
        {
          mean := mean + xs[j];
          j := j + 1;
        }
        mean := mean / period as real;
        var acc := 0.0;
        j := start;
        while j <= i
          invariant start <= j <= i + 1 && acc == WindowSpread(xs, start, j, mean)
        {
          var d := xs[j] - mean;
          acc := acc + d * d;
          j := j + 1;
        }
        assert MeanAt(xs, period, i) == Some(mean) && acc == WindowSpread(xs, i + 1 - period, i + 1, mean);
        var sd := root(acc / period as real);
        BandsFrom(xs, period, k, root, i, mean, acc);
        out := out + [Some(BandsAround(mean, k, sd))];
      }
      i := i + 1;
    }
  }

  // ----- gated reads --------------------------------------------------------------------------

  /** A series a strategy can read: one value per bar. */
  datatype Study = MovingAverage(period: nat) | Middle(period: nat) | Upper(period: nat, k: real) | Lower(period: nat, k: real)

  function ValueAt(study: Study, root: real -> real, xs: seq<real>, i: nat): Option<real>
    requires study.period > 0 && i < |xs|
  {
    match study
    case MovingAverage(p) => MeanAt(xs, p, i)
    case Middle(p) => (match BandsAt(xs, p, 0.0, root, i) case None => None case Some(b) => Some(b.middle))
    case Upper(p, k) => (match BandsAt(xs, p, k, root, i) case None => None case Some(b) => Some(b.upper))
    case Lower(p, k) => (match BandsAt(xs, p, k, root, i) case None => None case Some(b) => Some(b.lower))
  }

  /** The value of the bar `back` bars before the last one closed at `now`. */
  function ReadAt(study: Study, root: real -> real, bars: seq<Bar>, now: int, back: nat): Option<real>
    requires study.period > 0
  {
    var k := KnownCount(bars, now);
    if back >= k then None else ValueAt(study, root, Closes(bars), k - 1 - back)
  }

  lemma {:induction false} WindowLocal(xs: seq<real>, ys: seq<real>, lo: nat, hi: nat, mean: real)
    requires lo <= hi <= |xs| && hi <= |ys| && forall j :: lo <= j < hi ==> xs[j] == ys[j]
    ensures WindowSum(xs, lo, hi) == WindowSum(ys, lo, hi)
    ensures WindowSpread(xs, lo, hi, mean) == WindowSpread(ys, lo, hi, mean)
  {
    if lo < hi {
      WindowLocal(xs, ys, lo, hi - 1, mean);
    }
  }

  /** A value depends on no close after its own bar. */
  lemma ValueLocal(study: Study, root: real -> real, xs: seq<real>, ys: seq<real>, i: nat)
    requires study.period > 0 && i < |xs| && i < |ys| && forall j :: 0 <= j <= i ==> xs[j] == ys[j]
    ensures ValueAt(study, root, xs, i) == ValueAt(study, root, ys, i)
  {
    var p := study.period;
    if i + 1 >= p {
      var mean := WindowSum(xs, i + 1 - p, i + 1) / p as real;
      WindowLocal(xs, ys, i + 1 - p, i + 1, mean);
      assert MeanAt(xs, p, i) == Some(mean) && MeanAt(ys, p, i) == Some(mean);
      var spread := WindowSpread(xs, i + 1 - p, i + 1, mean);
      forall k ensures BandsAt(xs, p, k, root, i) == BandsAt(ys, p, k, root, i) {
        BandsFrom(xs, p, k, root, i, mean, spread);
        BandsFrom(ys, p, k, root, i, mean, spread);
      }
    }
  }

  /** Reading an indicator at or before the cutoff sees no difference when later data is removed. */
  lemma ReadCausal(study: Study, root: real -> real, g: Grid, cols: seq<Quote>, now: int, cutoff: int, back: nat)
    requires study.period > 0 && g.interval > 0 && TimeSorted(cols) && now <= cutoff
    ensures ReadAt(study, root, BarsOf(g, Upto(cols, cutoff)), now, back) == ReadAt(study, root, BarsOf(g, cols), now, back)
  {
    hide BarsOf, Completed, Forming, ValueAt, Upto, TimeSorted, KnownCount;
    BarsCausal(g, cols, now, cutoff);
    var short, long := BarsOf(g, Upto(cols, cutoff)), BarsOf(g, cols);
    var k := KnownCount(long, now);
    if back < k {
      ValueLocal(study, root, Closes(short), Closes(long), k - 1 - back);
    }
  }
}
