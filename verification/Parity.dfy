/** Finding the strike where call and put are closest: a doubling-then-bisecting search over the ladder,
    and exactly when it agrees with a scan of the whole chain.

    `gap[i]` is call mid minus put mid at strike `i`, in minor units, or nothing when either side of the
    pair has no two-sided quote. */
module Parity {
  import opened Types
  import opened Words

  // ----- the ladder ---------------------------------------------------------------------------

  /** Every strike is quoted on both sides, and the difference strictly falls as the strike rises. */
  ghost predicate Falling(gap: seq<Option<int>>) {
    && (forall i :: 0 <= i < |gap| ==> gap[i].Some?)
    && (forall i, j :: 0 <= i < j < |gap| ==> gap[i].value > gap[j].value)
  }

  /** No quoted strike is closer to parity. */
  ghost predicate Closest(gap: seq<Option<int>>, best: int) {
    && 0 <= best < |gap| && gap[best].Some?
    && forall i :: 0 <= i < |gap| && gap[i].Some? ==> Abs(gap[best].value) <= Abs(gap[i].value)
  }

  // ----- the scan -----------------------------------------------------------------------------

  /** The whole-chain scan keeps the first strike of least distance. */
  method Scan(gap: seq<Option<int>>) returns (best: Option<nat>)
    ensures best.None? <==> forall i :: 0 <= i < |gap| ==> gap[i].None?
    ensures best.Some? ==> Closest(gap, best.value) && forall i :: 0 <= i < best.value && gap[i].Some? ==> Abs(gap[i].value) > Abs(gap[best.value].value)
  {
    best := None;
    for i := 0 to |gap|
      invariant best.None? <==> forall j :: 0 <= j < i ==> gap[j].None?
      invariant best.Some? ==> best.value < i && gap[best.value].Some?
      invariant best.Some? ==> forall j :: 0 <= j < i && gap[j].Some? ==> Abs(gap[best.value].value) <= Abs(gap[j].value)
      invariant best.Some? ==> forall j :: 0 <= j < best.value && gap[j].Some? ==> Abs(gap[j].value) > Abs(gap[best.value].value)
    {
      if gap[i].Some? && (best.None? || Abs(gap[i].value) < Abs(gap[best.value].value)) {
        best := Some(i);
      }
    }
  }

  // ----- the search ---------------------------------------------------------------------------

  const GIVE_UP := 12

  /** The nearest quoted strike to the middle, looking up before down, at most thirteen steps out. */
  method UsableNear(gap: seq<Option<int>>, i: nat) returns (r: Option<nat>)
    requires i < |gap|
    ensures r.Some? ==> r.value < |gap| && gap[r.value].Some?
    ensures gap[i].Some? ==> r == Some(i)
    ensures r.None? ==> forall j :: 0 <= j < |gap| && i - GIVE_UP - 1 <= j <= i + GIVE_UP + 1 ==> gap[j].None?
    ensures r.Some? ==> forall j :: 0 <= j < |gap| && Abs(j - i) < Abs(r.value - i) ==> gap[j].None?
    ensures r.Some? && r.value < i && 2 * i - r.value < |gap| ==> gap[2 * i - r.value].None?
  {
    var step := 0;
    while step < |gap|
      invariant 0 <= step <= |gap| && (step > 0 ==> gap[i].None?) && step <= GIVE_UP + 1
      invariant forall j :: 0 <= j < |gap| && i - step < j < i + step ==> gap[j].None?
    {
      if i + step < |gap| && gap[i + step].Some? { return Some(i + step); }
      if step != 0 && i >= step && gap[i - step].Some? { return Some(i - step); }
      if step > GIVE_UP { break; }
      step := step + 1;
    }
    return None;
  }

  /** How far the doubling walk gets up the ladder if it never crosses parity. */
  function TopProbe(n: nat, at: nat, stride: nat): (r: nat)
    requires at < n && stride > 0
    ensures at <= r < n
    decreases n - at
  {
    if stride >= n || at + stride >= n then at else TopProbe(n, at + stride, 2 * stride)
  }

  function BottomProbe(n: nat, at: nat, stride: nat): (r: nat)
    requires at < n && stride > 0
    ensures r <= at
    decreases at
  {
    if stride >= n || stride > at then at else BottomProbe(n, at - stride, 2 * stride)
  }

  /** The walk from the middle crosses parity, or ends on the edge of the ladder, or stops at a strike
      no farther from parity than its unprobed neighbour. */
  predicate WalkSuffices(gap: seq<Option<int>>)
    requires |gap| > 0 && forall i :: 0 <= i < |gap| ==> gap[i].Some?
  {
    var n, a := |gap|, |gap| / 2;
    if gap[a].value > 0 then
      var p := TopProbe(n, a, 1);
      gap[p].value <= 0 || p == n - 1 || gap[p].value + gap[p + 1].value <= 0
    else
      var p := BottomProbe(n, a, 1);
      gap[p].value >= 0 || p == 0 || gap[p].value + gap[p - 1].value >= 0
  }

  /** Smallest number of halvings that brings `n` to one. */
  function Log(n: nat): nat {
    if n <= 1 then 0 else 1 + Log((n + 1) / 2)
  }

  lemma {:induction false} LogGrows(m: nat, n: nat)
    requires m <= n
    ensures Log(m) <= Log(n)
    decreases n
  {
    if n > 1 && m > 1 {
      LogGrows((m + 1) / 2, (n + 1) / 2);
    }
  }

  lemma {:induction false} LogOfPower(k: nat, n: nat)
    requires Pow2(k) < n
    ensures k < Log(n)
    decreases k
  {
    if k > 0 {
      LogOfPower(k - 1, (n + 1) / 2);
    }
  }

  datatype Bracket = Bracket(lo: nat, hi: nat, best: nat)

  /** One doubling step up the ladder. */
  lemma StepUp(gap: seq<Option<int>>, a: nat, stride: nat, b: Bracket, probe: nat)
    requires Falling(gap) && 0 < stride < |gap| && Walking(gap, a, stride, b) && gap[b.best].value > 0
    requires probe == b.best + stride < |gap|
    ensures var d := gap[probe].value;
            var next := Bracket(b.best, probe, if Abs(d) < Abs(gap[b.best].value) then probe else b.best);
            if d <= 0 then Walked(gap, a, next) else Walking(gap, a, stride * 2, next)
  {
    FurtherUp(gap, b.best, probe);
  }

  lemma StepDown(gap: seq<Option<int>>, a: nat, stride: nat, b: Bracket, probe: nat)
    requires Falling(gap) && 0 < stride < |gap| && Walking(gap, a, stride, b) && gap[b.best].value <= 0
    requires stride <= b.best && probe == b.best - stride
    ensures var d := gap[probe].value;
            var next := Bracket(probe, b.best, if Abs(d) < Abs(gap[b.best].value) then probe else b.best);
            if d >= 0 then Walked(gap, a, next) else Walking(gap, a, stride * 2, next)
  {
    FurtherUp(gap, probe, b.best);
  }

  lemma FurtherUp(gap: seq<Option<int>>, i: nat, j: nat)
    requires Falling(gap) && i < j < |gap|
    ensures gap[i].value > gap[j].value
  {
  }

  /** The walk has run out of ladder. */
  lemma WalkEnds(gap: seq<Option<int>>, a: nat, stride: nat, b: Bracket)
    requires Falling(gap) && 0 < stride && Walking(gap, a, stride, b)
    requires stride >= |gap| || (if gap[b.best].value > 0 then b.best + stride >= |gap| else stride > b.best)
    ensures Walked(gap, a, b)
  {
  }

  lemma Quoted(gap: seq<Option<int>>, i: nat)
    ensures Falling(gap) && i < |gap| ==> gap[i].Some?
  {
  }

  lemma WalkStarts(gap: seq<Option<int>>, a: nat)
    requires Falling(gap) && a < |gap|
    ensures Walking(gap, a, 1, Bracket(a, a, a))
  {
  }

  /** The doubling phase. */
  method Walk(gap: seq<Option<int>>, anchor: nat) returns (b: Bracket, probes: nat)
    requires anchor < |gap| && gap[anchor].Some?
    ensures b.lo <= b.hi < |gap| && (b.best == b.lo || b.best == b.hi) && gap[b.best].Some? && b.hi - b.lo < |gap|
    ensures probes <= Log(|gap|)
    ensures Falling(gap) ==> Walked(gap, anchor, b)
  {
    hide Walking, Walked, Falling;
    b := Bracket(anchor, anchor, anchor);
    var stride := 1;
    probes := 0;
    ghost var k := 0;
    if Falling(gap) { WalkStarts(gap, anchor); }
    while stride < |gap|
      invariant stride == Pow2(k) && probes == k && probes <= Log(|gap|)
      invariant b.lo <= b.hi < |gap| && (b.best == b.lo || b.best == b.hi) && gap[b.best].Some?
      invariant Falling(gap) ==> Walking(gap, anchor, stride, b)
      decreases |gap| - stride
    {
      LogOfPower(k, |gap|);
      var d;
      if gap[b.best].value > 0 {
        var probe := b.best + stride;
        Quoted(gap, probe);
        if probe >= |gap| || gap[probe].None? { break; }
        probes := probes + 1;
        d := gap[probe].value;
        if Falling(gap) { StepUp(gap, anchor, stride, b, probe); }
        b := Bracket(b.best, probe, if Abs(d) < Abs(gap[b.best].value) then probe else b.best);
        if d <= 0 { return; }
      } else {
        if stride > b.best { break; }
        var probe := b.best - stride;
        Quoted(gap, probe);
        if gap[probe].None? { break; }
        probes := probes + 1;
        d := gap[probe].value;
        if Falling(gap) { StepDown(gap, anchor, stride, b, probe); }
        b := Bracket(probe, b.best, if Abs(d) < Abs(gap[b.best].value) then probe else b.best);
        if d >= 0 { return; }
      }
      stride := stride * 2;
      k := k + 1;
    }
    if Falling(gap) { WalkEnds(gap, anchor, stride, b); }
  }

  /** Mid-walk, with no crossing yet: the last probe is the best so far, and the walk still heads for the
      same last strike. */
  ghost predicate Walking(gap: seq<Option<int>>, a: nat, stride: nat, b: Bracket)
    requires Falling(gap)
  {
    && a < |gap| && stride > 0 && b.lo <= b.hi < |gap|
    && if gap[a].value > 0 then
         b.best == b.hi && gap[b.hi].value > 0 && TopProbe(|gap|, b.best, stride) == TopProbe(|gap|, a, 1)
       else
         b.best == b.lo && gap[b.lo].value <= 0 && (stride > 1 ==> gap[b.lo].value < 0)
         && BottomProbe(|gap|, b.best, stride) == BottomProbe(|gap|, a, 1)
  }

  /** After the walk: either parity lies inside the bracket and the best end is kept, or the walk ran out
      of ladder on one side of parity. */
  ghost predicate Walked(gap: seq<Option<int>>, a: nat, b: Bracket)
    requires Falling(gap)
  {
    && a < |gap| && b.lo <= b.hi < |gap|
    && ((Crossed(gap, b) && (if gap[a].value > 0 then b.hi <= TopProbe(|gap|, a, 1) else b.lo >= BottomProbe(|gap|, a, 1)))
        || (gap[a].value > 0 && b.best == b.hi == TopProbe(|gap|, a, 1) && gap[b.hi].value > 0)
        || (gap[a].value <= 0 && b.best == b.lo == BottomProbe(|gap|, a, 1) && gap[b.lo].value <= 0))
  }

  ghost predicate Crossed(gap: seq<Option<int>>, b: Bracket)
    requires Falling(gap)
  {
    && b.lo <= b.hi < |gap| && b.best < |gap| && gap[b.lo].value >= 0 >= gap[b.hi].value
    && Abs(gap[b.best].value) <= Abs(gap[b.lo].value) && Abs(gap[b.best].value) <= Abs(gap[b.hi].value)
  }

  /** What the bisection keeps, from the bracket `b` it was given to the one it holds. */
  ghost predicate Narrowing(gap: seq<Option<int>>, b: Bracket, c: Bracket)
    requires Falling(gap)
  {
    && b.lo <= c.lo <= c.hi <= b.hi < |gap|
    && (Crossed(gap, b) ==> Crossed(gap, c))
    && (b.best == b.hi && gap[b.hi].value > 0 ==> c.best == b.best)
    && (b.best == b.lo && gap[b.lo].value <= 0 ==> c.best == b.best)
  }

  lemma Halved(gap: seq<Option<int>>, b: Bracket, c: Bracket, mid: nat)
    requires Falling(gap) && Narrowing(gap, b, c) && c.best < |gap| && c.lo < mid < c.hi
    ensures var d := gap[mid].value;
            var best := if Abs(d) < Abs(gap[c.best].value) then mid else c.best;
            Narrowing(gap, b, if d > 0 then Bracket(mid, c.hi, best) else Bracket(c.lo, mid, best))
  {
    FurtherUp(gap, c.lo, mid);
    FurtherUp(gap, mid, c.hi);
    if mid < b.hi { FurtherUp(gap, mid, b.hi); }
    if b.lo < mid { FurtherUp(gap, b.lo, mid); }
  }

  /** The bisecting phase. */
  method Bisect(gap: seq<Option<int>>, b: Bracket) returns (best: nat, probes: nat)
    requires b.lo <= b.hi < |gap| && (b.best == b.lo || b.best == b.hi) && gap[b.best].Some?
    ensures best < |gap| && gap[best].Some? && probes <= Log(b.hi - b.lo)
    ensures Falling(gap) && Crossed(gap, b) ==> Closest(gap, best)
    ensures Falling(gap) && b.best == b.hi && gap[b.hi].value > 0 ==> best == b.best
    ensures Falling(gap) && b.best == b.lo && gap[b.lo].value <= 0 ==> best == b.best
  {
    hide Crossed, Closest;
    var c := b;
    probes := 0;
    while c.hi > c.lo + 1
      invariant b.lo <= c.lo <= c.hi <= b.hi && c.best < |gap| && gap[c.best].Some?
      invariant probes + Log(c.hi - c.lo) <= Log(b.hi - b.lo)
      invariant Falling(gap) ==> Narrowing(gap, b, c)
      decreases c.hi - c.lo
    {
      var mid := c.lo + (c.hi - c.lo) / 2;
      if gap[mid].None? { break; }
      LogGrows(mid - c.lo, (c.hi - c.lo + 1) / 2);
      LogGrows(c.hi - mid, (c.hi - c.lo + 1) / 2);
      probes := probes + 1;
      var d := gap[mid].value;
      if Falling(gap) { Halved(gap, b, c, mid); }
      var nearer := if Abs(d) < Abs(gap[c.best].value) then mid else c.best;
      c := if d > 0 then Bracket(mid, c.hi, nearer) else Bracket(c.lo, mid, nearer);
    }
    best := c.best;
    if Falling(gap) && Crossed(gap, b) { CrossingIsClosest(gap, c); }
  }

  /** With adjacent ends on either side of parity, the better end is the closest strike of all. */
  lemma CrossingIsClosest(gap: seq<Option<int>>, b: Bracket)
    requires Falling(gap) && Crossed(gap, b) && b.hi <= b.lo + 1
    ensures Closest(gap, b.best)
  {
    forall i | 0 <= i < |gap| && gap[i].Some? ensures Abs(gap[b.best].value) <= Abs(gap[i].value) {
      if i < b.lo { assert gap[i].value > gap[b.lo].value; }
      if i > b.hi { assert gap[i].value < gap[b.hi].value; }
    }
  }

  /** Where the walk ran out of ladder, its last strike is the closest exactly when no unprobed
      neighbour is closer. */
  lemma StoppedShort(gap: seq<Option<int>>, p: nat)
    requires Falling(gap) && p < |gap|
    ensures gap[p].value > 0 ==> (Closest(gap, p) <==> p == |gap| - 1 || gap[p].value + gap[p + 1].value <= 0)
    ensures gap[p].value < 0 ==> (Closest(gap, p) <==> p == 0 || gap[p].value + gap[p - 1].value >= 0)
    ensures gap[p].value == 0 ==> Closest(gap, p)
  {
    forall i | 0 <= i < |gap| && i != p ensures if i < p then gap[i].value > gap[p].value else gap[i].value < gap[p].value {
    }
    if gap[p].value > 0 && p < |gap| - 1 {
      forall i | p + 1 < i < |gap| ensures gap[i].value < gap[p + 1].value { }
    }
    if gap[p].value < 0 && p > 0 {
      forall i | 0 <= i < p - 1 ensures gap[i].value > gap[p - 1].value { }
    }
  }

  /** The doubling-and-bisecting search.  On a fully quoted ladder whose difference strictly falls it
      finds a closest strike if and only if `WalkSuffices`, after at most one probe and two logarithms. */
  method Search(gap: seq<Option<int>>) returns (best: Option<nat>, probes: nat)
    ensures best.Some? ==> best.value < |gap| && gap[best.value].Some?
    ensures Falling(gap) && gap != [] ==>
              && best.Some? && (Closest(gap, best.value) <==> WalkSuffices(gap))
              && probes <= 2 * Log(|gap|) + 1
  {
    best, probes := None, 0;
    if gap == [] { return; }
    var anchor := UsableNear(gap, |gap| / 2);
    if anchor.None? { return; }
    var b, walked := Walk(gap, anchor.value);
    var found, bisected := Bisect(gap, b);
    best, probes := Some(found), 1 + walked + bisected;
    if Falling(gap) {
      LogGrows(b.hi - b.lo, |gap|);
      if found == b.best { StoppedShort(gap, found); }
      WalkDecides(gap, b, found);
    }
  }

  lemma WalkDecides(gap: seq<Option<int>>, b: Bracket, found: nat)
    requires Falling(gap) && gap != [] && Walked(gap, |gap| / 2, b) && found < |gap|
    requires Crossed(gap, b) ==> Closest(gap, found)
    requires b.best == b.hi && gap[b.hi].value > 0 ==> found == b.best
    requires b.best == b.lo && gap[b.lo].value <= 0 ==> found == b.best
    ensures Closest(gap, found) <==> WalkSuffices(gap)
  {
    var n, a := |gap|, |gap| / 2;
    if Crossed(gap, b) {
      if gap[a].value > 0 {
        InOrderAt(gap, b.hi, TopProbe(n, a, 1));
      } else {
        InOrderAt(gap, BottomProbe(n, a, 1), b.lo);
      }
    } else {
      StoppedShort(gap, found);
    }
  }

  lemma InOrderAt(gap: seq<Option<int>>, i: nat, j: nat)
    requires Falling(gap) && i < |gap| && j < |gap|
    ensures i <= j ==> gap[i].value >= gap[j].value
  {
  }

  /** The search is not the scan: on these six strikes it stops at the fifth, although the sixth, next to
      it at the edge of the ladder, is nearer parity. */
  lemma SearchMayStopShort()
    ensures var gap := [Some(60), Some(50), Some(40), Some(30), Some(10), Some(1)];
            Falling(gap) && !WalkSuffices(gap) && TopProbe(6, 3, 1) == 4 && !Closest(gap, 4) && Closest(gap, 5)
  {
    assert TopProbe(6, 4, 2) == 4;
  }
}
