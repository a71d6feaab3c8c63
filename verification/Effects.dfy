/** What each operation does to every leg, order and trade, stated without its loops. */
module Effects {
  import opened Types
  import opened Books
  import opened Matching
  import opened EndOfDay

  /** Two orders of the queue never work on one leg. */
  lemma DistinctLegs(b: Book, j: nat, k: nat)
    requires Matched(b) && j < k < |b.pending|
    ensures b.pending[j].position != b.pending[k].position || b.pending[j].leg != b.pending[k].leg
  {
    var o, left, right := b.pending[k], b.pending[..k], b.pending[k + 1..];
    assert b.pending == left + [o] + right;
    assert HasLeg(b, o.position, o.leg);
    OrdersOnSplice(left, o, right, o.position, o.leg);
    OrdersOnSome(left + right, o.position, o.leg);
    assert (left + right)[j] == b.pending[j];
    assert OrdersOn(b.pending, o.position, o.leg) <= 1;
  }

  /** The queue index, below `k`, of the order working on a leg. */
  ghost predicate WorkedBelow(b: Book, k: nat, p: int, i: int) {
    exists j :: 0 <= j < k <= |b.pending| && b.pending[j].position == p && b.pending[j].leg == i
  }

  lemma WorkedIsWorking(b: Book, p: int, i: int)
    requires Matched(b) && HasLeg(b, p, i)
    ensures WorkedBelow(b, |b.pending|, p, i) <==> LegAt(b, p, i).Working()
  {
    OrdersOnSome(b.pending, p, i);
  }

  lemma WorkedBelowStep(b: Book, k: nat, p: int, i: int)
    requires 0 < k <= |b.pending|
    ensures var o := b.pending[k - 1];
            WorkedBelow(b, k, p, i) <==> WorkedBelow(b, k - 1, p, i) || (o.position == p && o.leg == i)
  {
    var o := b.pending[k - 1];
    if o.position == p && o.leg == i {
      assert b.pending[k - 1] == o;
    }
  }

  // ----- a fill pass --------------------------------------------------------------------------

  /** The orders of the first `k` that do not trade now, in queue order. */
  function Resting(orders: seq<Order>, pol: Policy, m: Market): seq<Order> {
    if orders == [] then []
    else
      var o := orders[|orders| - 1];
      Resting(orders[..|orders| - 1], pol, m) + if FillPrice(pol, m, o).None? then [o] else []
  }

  function TradeOf(o: Order, pol: Policy, m: Market): Trade
    requires FillPrice(pol, m, o).Some?
  {
    var price := FillPrice(pol, m, o).value;
    var q := m.Latest(o.instrument).value;
    Trade(o.submittedAt, m.now, o.position, o.instrument, o.side, o.qty, price, FillCost(pol, m, o, price),
          IsIlliquid(pol, q), o.fromRule, IsOversized(q, o), false)
  }

  function Executed(orders: seq<Order>, pol: Policy, m: Market): seq<Trade> {
    if orders == [] then []
    else
      var o := orders[|orders| - 1];
      Executed(orders[..|orders| - 1], pol, m) + if FillPrice(pol, m, o).Some? then [TradeOf(o, pol, m)] else []
  }

  function AfterFill(l: Leg, o: Order, pol: Policy, m: Market): Leg {
    if FillPrice(pol, m, o).Some? then FilledLeg(l, o.closing, FillPrice(pol, m, o).value, m.now) else l
  }

  /** The first `k` orders have been tried, each on its own leg; no other leg moved. */
  ghost predicate Tried(b: Book, c: Book, pol: Policy, m: Market, k: nat) {
    && k <= |b.pending| && Addressed(b, b.pending) && SameShape(b, c)
    && (forall p, i :: HasLeg(b, p, i) && !WorkedBelow(b, k, p, i) ==> LegAt(c, p, i) == LegAt(b, p, i))
    && (forall j :: 0 <= j < k ==>
          LegAt(c, b.pending[j].position, b.pending[j].leg)
          == AfterFill(LegAt(b, b.pending[j].position, b.pending[j].leg), b.pending[j], pol, m))
  }

  lemma NothingTried(b: Book, pol: Policy, m: Market)
    requires Addressed(b, b.pending)
    ensures Tried(b, b, pol, m, 0)
  {
  }

  /** The next order's leg has not been touched yet. */
  lemma UntouchedYet(b: Book, c: Book, pol: Policy, m: Market, k: nat)
    requires Matched(b) && k < |b.pending| && Tried(b, c, pol, m, k)
    ensures var o := b.pending[k];
            HasLeg(c, o.position, o.leg) && LegAt(c, o.position, o.leg) == LegAt(b, o.position, o.leg)
  {
    var o := b.pending[k];
    forall j | 0 <= j < k ensures b.pending[j].position != o.position || b.pending[j].leg != o.leg {
      DistinctLegs(b, j, k);
    }
    assert !WorkedBelow(b, k, o.position, o.leg);
  }

  lemma TriedNext(b: Book, c: Book, c': Book, pol: Policy, m: Market, k: nat)
    requires Matched(b) && k < |b.pending| && Tried(b, c, pol, m, k) && SameShape(c, c')
    requires var o := b.pending[k];
             && HasLeg(c, o.position, o.leg) && LegAt(c, o.position, o.leg) == LegAt(b, o.position, o.leg)
             && LegAt(c', o.position, o.leg) == AfterFill(LegAt(c, o.position, o.leg), o, pol, m)
             && forall p, i :: HasLeg(c, p, i) && (p != o.position || i != o.leg) ==> LegAt(c', p, i) == LegAt(c, p, i)
    ensures Tried(b, c', pol, m, k + 1)
  {
    hide AfterFill, MatchedBut;
    forall j | 0 <= j < k ensures b.pending[j].position != b.pending[k].position || b.pending[j].leg != b.pending[k].leg {
      DistinctLegs(b, j, k);
    }
    forall p, i | HasLeg(b, p, i) && !WorkedBelow(b, k + 1, p, i) ensures LegAt(c', p, i) == LegAt(b, p, i) {
      WorkedBelowStep(b, k + 1, p, i);
    }
  }

  lemma {:induction false} ProcessUptoEffect(b: Book, pol: Policy, m: Market, k: nat)
    requires Matched(b) && k <= |b.pending| && Addressed(b, b.pending)
    ensures var (c, still) := ProcessUpto(b, pol, m, k);
            && still == Resting(b.pending[..k], pol, m)
            && c.trades == b.trades + Executed(b.pending[..k], pol, m)
            && Tried(b, c, pol, m, k)
  {
    hide Matched, Tried, AfterFill, TradeOf, Fill, FillPrice, Addressed;
    if k == 0 {
      NothingTried(b, pol, m);
    } else {
      ProcessUptoEffect(b, pol, m, k - 1);
      var c, c' := ProcessUpto(b, pol, m, k - 1).0, ProcessUpto(b, pol, m, k).0;
      assert b.pending[..k][..k - 1] == b.pending[..k - 1];
      UntouchedYet(b, c, pol, m, k - 1);
      FillTouchesOneLeg(c, pol, m, b.pending[k - 1], c');
      TriedNext(b, c, c', pol, m, k - 1);
    }
  }

  lemma FillTouchesOneLeg(c: Book, pol: Policy, m: Market, o: Order, c': Book)
    requires HasLeg(c, o.position, o.leg)
    requires c' == if FillPrice(pol, m, o).Some? then Fill(c, pol, m, o) else c
    ensures SameShape(c, c') && c'.trades == c.trades + (if FillPrice(pol, m, o).Some? then [TradeOf(o, pol, m)] else [])
    ensures LegAt(c', o.position, o.leg) == AfterFill(LegAt(c, o.position, o.leg), o, pol, m)
    ensures forall p, i :: HasLeg(c, p, i) && (p != o.position || i != o.leg) ==> LegAt(c', p, i) == LegAt(c, p, i)
  {
    var s := SetLeg(c, o.position, o.leg, AfterFill(LegAt(c, o.position, o.leg), o, pol, m));
    if FillPrice(pol, m, o).Some? {
      assert c'.positions == s.positions;
      forall p, i | HasLeg(c, p, i) ensures LegAt(c', p, i) == LegAt(s, p, i) { }
    }
  }

  /** A fill pass executes exactly the orders that have a price now, each on its own leg at that price,
      logs them in queue order, and leaves the others resting in order. */
  lemma ProcessPendingEffect(b: Book, pol: Policy, m: Market)
    requires Matched(b)
    ensures var b' := ProcessPending(b, pol, m);
            && b'.pending == Resting(b.pending, pol, m)
            && b'.trades == b.trades + Executed(b.pending, pol, m)
    ensures var b' := ProcessPending(b, pol, m);
            forall p, i :: HasLeg(b, p, i) && !LegAt(b, p, i).Working() ==> LegAt(b', p, i) == LegAt(b, p, i)
    ensures var b' := ProcessPending(b, pol, m);
            forall j :: 0 <= j < |b.pending| ==>
              var o := b.pending[j];
              LegAt(b', o.position, o.leg) == AfterFill(LegAt(b, o.position, o.leg), o, pol, m)
  {
    ProcessUptoEffect(b, pol, m, |b.pending|);
    assert b.pending[..|b.pending|] == b.pending;
    var c := ProcessUpto(b, pol, m, |b.pending|).0;
    var b' := ProcessPending(b, pol, m);
    forall p, i | HasLeg(b, p, i) ensures LegAt(b', p, i) == LegAt(c, p, i) { }
    forall p, i | HasLeg(b, p, i) && !LegAt(b, p, i).Working() ensures !WorkedBelow(b, |b.pending|, p, i) {
      WorkedIsWorking(b, p, i);
    }
  }

  // ----- closing a position -------------------------------------------------------------------

  function AfterClose(l: Leg): Leg {
    if l.state.PendingOpen? then l.(state := Cancelled)
    else if l.state.Open? then l.(state := PendingClose)
    else l
  }

  function Kept(orders: seq<Order>, p: nat): seq<Order> {
    if orders == [] then []
    else
      var o := orders[|orders| - 1];
      Kept(orders[..|orders| - 1], p) + if OpensPosition(o, p) then [] else [o]
  }

  /** One closing order for each open leg among the first `n`, in leg order. */
  function Exits(b: Book, p: nat, n: nat, now: int, fromRule: bool): seq<Order>
    requires p < |b.positions| && n <= |b.positions[p].legs|
  {
    if n == 0 then []
    else Exits(b, p, n - 1, now, fromRule)
         + if LegAt(b, p, n - 1).state.Open? then [ClosingOrder(b, p, n - 1, now, fromRule)] else []
  }

  /** The position's openings among the first `k` orders are withdrawn. */
  ghost predicate Withdrawn(b: Book, c: Book, p: nat, k: nat) {
    && SameShape(b, c)
    && forall q, i :: HasLeg(b, q, i) ==>
         LegAt(c, q, i) == if q == p && LegAt(b, q, i).state.PendingOpen? && WorkedBelow(b, k, q, i)
                           then LegAt(b, q, i).(state := Cancelled) else LegAt(b, q, i)
  }

  lemma NothingWithdrawn(b: Book, p: nat)
    ensures Withdrawn(b, b, p, 0)
  {
  }

  lemma WithdrawnNext(b: Book, c: Book, c': Book, p: nat, k: nat)
    requires Matched(b) && k < |b.pending| && Withdrawn(b, c, p, k)
    requires var o := b.pending[k];
             HasLeg(c, o.position, o.leg)
             && c'.positions == if OpensPosition(o, p) then SetLeg(c, o.position, o.leg, LegAt(c, o.position, o.leg).(state := Cancelled)).positions
                                else c.positions
    ensures Withdrawn(b, c', p, k + 1)
  {
    var o := b.pending[k];
    assert OrderMatches(o, LegAt(b, o.position, o.leg), b.delay);
    hide MatchedBut, SetLeg;
    forall q, i | HasLeg(b, q, i)
      ensures HasLeg(c', q, i)
      ensures LegAt(c', q, i) == if q == p && LegAt(b, q, i).state.PendingOpen? && WorkedBelow(b, k + 1, q, i)
                                 then LegAt(b, q, i).(state := Cancelled) else LegAt(b, q, i)
    {
      WorkedBelowStep(b, k + 1, q, i);
      if OpensPosition(o, p) {
        WithdrawnLeg(c, o, c', q, i);
      }
    }
  }

  lemma {:induction false} WithdrawUptoEffect(b: Book, p: nat, k: nat)
    requires Matched(b) && k <= |b.pending| && Addressed(b, b.pending)
    ensures var (c, keep) := WithdrawUpto(b, p, k);
            && keep == Kept(b.pending[..k], p) && c.delay == b.delay && c.trades == b.trades
            && Withdrawn(b, c, p, k)
  {
    hide Matched, Withdrawn, OpensPosition;
    if k == 0 {
      NothingWithdrawn(b, p);
    } else {
      WithdrawUptoEffect(b, p, k - 1);
      var c, c' := WithdrawUpto(b, p, k - 1).0, WithdrawUpto(b, p, k).0;
      assert b.pending[..k][..k - 1] == b.pending[..k - 1];
      WithdrawnNext(b, c, c', p, k - 1);
    }
  }

  lemma WithdrawnLeg(c: Book, o: Order, c': Book, q: int, i: int)
    requires HasLeg(c, o.position, o.leg) && HasLeg(c, q, i)
    requires c'.positions == SetLeg(c, o.position, o.leg, LegAt(c, o.position, o.leg).(state := Cancelled)).positions
    ensures HasLeg(c', q, i)
    ensures LegAt(c', q, i) == if q == o.position && i == o.leg then LegAt(c, q, i).(state := Cancelled) else LegAt(c, q, i)
  {
    var s := SetLeg(c, o.position, o.leg, LegAt(c, o.position, o.leg).(state := Cancelled));
    assert LegAt(c', q, i) == LegAt(s, q, i);
  }

  /** The open legs among the first `n` have started to close. */
  ghost predicate Closing(b: Book, c: Book, p: nat, n: nat) {
    && SameShape(b, c)
    && forall q, i :: HasLeg(b, q, i) ==>
         LegAt(c, q, i) == if q == p && i < n && LegAt(b, q, i).state.Open? then LegAt(b, q, i).(state := PendingClose) else LegAt(b, q, i)
  }

  lemma NothingClosing(b: Book, p: nat)
    ensures Closing(b, b, p, 0)
  {
  }

  lemma ClosingNext(b: Book, c: Book, p: nat, n: nat, now: int, fromRule: bool)
    requires Closing(b, c, p, n) && HasLeg(b, p, n) && c.delay == b.delay
    ensures var c' := SubmitCloseLeg(c, p, n, now, fromRule);
            && LegAt(c, p, n) == LegAt(b, p, n)
            && Closing(b, c', p, n + 1) && c'.trades == c.trades && c'.delay == c.delay
            && c'.pending == c.pending + (if LegAt(b, p, n).state.Open? then [ClosingOrder(b, p, n, now, fromRule)] else [])
  {
    var s := SetLeg(c, p, n, LegAt(c, p, n).(state := PendingClose));
    var c' := SubmitCloseLeg(c, p, n, now, fromRule);
    assert LegAt(c, p, n) == LegAt(b, p, n);
    forall q, i | HasLeg(b, q, i)
      ensures LegAt(c', q, i) == if q == p && i < n + 1 && LegAt(b, q, i).state.Open? then LegAt(b, q, i).(state := PendingClose) else LegAt(b, q, i)
    {
      if LegAt(c, p, n).state == Open { assert LegAt(c', q, i) == LegAt(s, q, i); }
    }
  }

  lemma {:induction false} CloseLegsUptoEffect(b: Book, p: nat, n: nat, now: int, fromRule: bool)
    requires p < |b.positions| && n <= |b.positions[p].legs|
    ensures var c := CloseLegsUpto(b, p, n, now, fromRule);
            && c.pending == b.pending + Exits(b, p, n, now, fromRule) && c.trades == b.trades && c.delay == b.delay
            && Closing(b, c, p, n)
  {
    hide Closing, SubmitCloseLeg, ClosingOrder;
    if n == 0 {
      NothingClosing(b, p);
    } else {
      CloseLegsUptoEffect(b, p, n - 1, now, fromRule);
      ClosingNext(b, CloseLegsUpto(b, p, n - 1, now, fromRule), p, n - 1, now, fromRule);
    }
  }

  /** Closing a position withdraws its unfilled openings and orders one exit per open leg; every other
      leg and order is left alone. */
  lemma SubmitCloseEffect(b: Book, p: nat, now: int, fromRule: bool)
    requires Matched(b) && p < |b.positions|
    ensures var b' := SubmitClose(b, p, now, fromRule);
            forall q, i :: HasLeg(b, q, i) ==> LegAt(b', q, i) == if q == p then AfterClose(LegAt(b, q, i)) else LegAt(b, q, i)
    ensures SubmitClose(b, p, now, fromRule).pending
         == Kept(b.pending, p) + Exits(b, p, |b.positions[p].legs|, now, fromRule)
    ensures SubmitClose(b, p, now, fromRule).trades == b.trades
  {
    hide Kept, Exits, OrderMatches;
    WithdrawUptoEffect(b, p, |b.pending|);
    assert b.pending[..|b.pending|] == b.pending;
    var c := WithdrawOpenings(b, p);
    var w := WithdrawUpto(b, p, |b.pending|).0;
    forall q, i | HasLeg(b, q, i)
      ensures LegAt(c, q, i) == if q == p && LegAt(b, q, i).state.PendingOpen? then LegAt(b, q, i).(state := Cancelled) else LegAt(b, q, i)
    {
      WorkedIsWorking(b, q, i);
      assert LegAt(c, q, i) == LegAt(w, q, i);
    }
    CloseLegsUptoEffect(c, p, |c.positions[p].legs|, now, fromRule);
    SameExits(b, c, p, |b.positions[p].legs|, now, fromRule);
    assert forall q, i :: HasLeg(b, q, i) ==> HasLeg(c, q, i);
  }

  lemma {:induction false} SameExits(b: Book, c: Book, p: nat, n: nat, now: int, fromRule: bool)
    requires SameShape(b, c) && p < |b.positions| && n <= |b.positions[p].legs| && c.delay == b.delay
    requires forall i :: HasLeg(b, p, i) ==>
               LegAt(c, p, i) == if LegAt(b, p, i).state.PendingOpen? then LegAt(b, p, i).(state := Cancelled) else LegAt(b, p, i)
    ensures Exits(b, p, n, now, fromRule) == Exits(c, p, n, now, fromRule)
  {
    if n > 0 {
      SameExits(b, c, p, n - 1, now, fromRule);
      assert HasLeg(b, p, n - 1);
    }
  }

  // ----- settlement ---------------------------------------------------------------------------

  function AfterExpiry(l: Leg, m: Market, expiry: int, level: real, when: int): Leg {
    if Settles(l, m, expiry) then SettledLeg(l, m, level, when)
    else if l.state.PendingOpen? && ExpiresOn(m, l.instrument, expiry) then l.(state := Cancelled)
    else l
  }

  function SettlementOf(l: Leg, p: nat, pol: Policy, m: Market, level: real, when: int): Trade {
    Trade(when, when, p, l.instrument, l.ClosingSide(), Abs(l.qty), SettlePrice(m, l.instrument, level),
          SettleCost(pol, m, l, level), false, false, false, true)
  }

  /** One settlement per live expiring leg, in position and leg order. */
  function Settlements(b: Book, pol: Policy, m: Market, expiry: int, level: real, when: int, p: nat, i: nat): seq<Trade>
    requires p <= |b.positions| && (if p < |b.positions| then i <= |b.positions[p].legs| else i == 0)
    decreases p, i
  {
    if i > 0 then
      Settlements(b, pol, m, expiry, level, when, p, i - 1)
      + if Settles(LegAt(b, p, i - 1), m, expiry) then [SettlementOf(LegAt(b, p, i - 1), p, pol, m, level, when)] else []
    else if p > 0 then Settlements(b, pol, m, expiry, level, when, p - 1, |b.positions[p - 1].legs|)
    else []
  }

  lemma SettleLegEffect(c: Book, pol: Policy, m: Market, expiry: int, level: real, when: int, p: nat, i: nat)
    requires HasLeg(c, p, i)
    ensures var l, c' := LegAt(c, p, i), SettleLeg(c, pol, m, expiry, level, when, p, i);
            && LegAt(c', p, i) == (if Settles(l, m, expiry) then SettledLeg(l, m, level, when) else l)
            && c'.trades == c.trades + (if Settles(l, m, expiry) then [SettlementOf(l, p, pol, m, level, when)] else [])
  {
    var l := LegAt(c, p, i);
    var s := SetLeg(c, p, i, SettledLeg(l, m, level, when));
    assert LegAt(s, p, i) == SettledLeg(l, m, level, when);
  }

  /** Expiring live legs before leg `i` of position `p` are settled. */
  ghost predicate SettledBefore(b: Book, c: Book, m: Market, expiry: int, level: real, when: int, p: nat, i: nat) {
    && SameShape(b, c)
    && forall q, j :: HasLeg(b, q, j) ==>
         LegAt(c, q, j) == if (q < p || (q == p && j < i)) && Settles(LegAt(b, q, j), m, expiry)
                           then SettledLeg(LegAt(b, q, j), m, level, when) else LegAt(b, q, j)
  }

  lemma NoneSettledYet(b: Book, m: Market, expiry: int, level: real, when: int)
    ensures SettledBefore(b, b, m, expiry, level, when, 0, 0)
  {
  }

  lemma SettledNextPosition(b: Book, c: Book, m: Market, expiry: int, level: real, when: int, p: nat)
    requires p < |b.positions| && SettledBefore(b, c, m, expiry, level, when, p, |b.positions[p].legs|)
    ensures SettledBefore(b, c, m, expiry, level, when, p + 1, 0)
  {
    hide Settles, SettledLeg;
  }

  lemma SettledNextLeg(b: Book, c: Book, pol: Policy, m: Market, expiry: int, level: real, when: int, p: nat, i: nat)
    requires HasLeg(b, p, i) && SettledBefore(b, c, m, expiry, level, when, p, i)
    ensures HasLeg(c, p, i)
    ensures var c' := SettleLeg(c, pol, m, expiry, level, when, p, i);
            && SettledBefore(b, c', m, expiry, level, when, p, i + 1)
            && c'.trades == c.trades + (if Settles(LegAt(b, p, i), m, expiry) then [SettlementOf(LegAt(b, p, i), p, pol, m, level, when)] else [])
  {
    hide Settles, SettledLeg, SettlementOf, SettleLeg;
    SettleLegEffect(c, pol, m, expiry, level, when, p, i);
    var c' := SettleLeg(c, pol, m, expiry, level, when, p, i);
    forall q, j | HasLeg(b, q, j)
      ensures LegAt(c', q, j) == if (q < p || (q == p && j < i + 1)) && Settles(LegAt(b, q, j), m, expiry)
                                 then SettledLeg(LegAt(b, q, j), m, level, when) else LegAt(b, q, j)
    {
      if q != p || j != i {
        SettleLegElsewhere(c, pol, m, expiry, level, when, p, i, q, j);
      }
    }
  }

  lemma {:induction false} SettleUptoEffect(b: Book, pol: Policy, m: Market, expiry: int, level: real, when: int, p: nat, i: nat)
    requires p <= |b.positions| && (if p < |b.positions| then i <= |b.positions[p].legs| else i == 0)
    ensures var c := SettleUpto(b, pol, m, expiry, level, when, p, i);
            && c.trades == b.trades + Settlements(b, pol, m, expiry, level, when, p, i)
            && SettledBefore(b, c, m, expiry, level, when, p, i)
    decreases p, i
  {
    hide Settles, SettledLeg, SettlementOf, SettleLeg, SettledBefore;
    if i > 0 {
      SettleUptoEffect(b, pol, m, expiry, level, when, p, i - 1);
      SettledNextLeg(b, SettleUpto(b, pol, m, expiry, level, when, p, i - 1), pol, m, expiry, level, when, p, i - 1);
    } else if p > 0 {
      SettleUptoEffect(b, pol, m, expiry, level, when, p - 1, |b.positions[p - 1].legs|);
      SettledNextPosition(b, SettleUpto(b, pol, m, expiry, level, when, p, i), m, expiry, level, when, p - 1);
    } else {
      NoneSettledYet(b, m, expiry, level, when);
    }
  }

  function KeptAfterExpiry(orders: seq<Order>, m: Market, expiry: int): seq<Order> {
    if orders == [] then []
    else
      var o := orders[|orders| - 1];
      KeptAfterExpiry(orders[..|orders| - 1], m, expiry) + if ExpiresOn(m, o.instrument, expiry) then [] else [o]
  }

  /** Orders know their instrument, and only an opening order works on a leg that waits to open. */
  ghost predicate OrdersKnow(b: Book) {
    && Addressed(b, b.pending)
    && forall j :: 0 <= j < |b.pending| ==>
         var l := LegAt(b, b.pending[j].position, b.pending[j].leg);
         b.pending[j].instrument == l.instrument && (l.state.PendingOpen? ==> !b.pending[j].closing)
  }

  /** Legs of the series that waited to open, with an order among the first `k`, are cancelled. */
  ghost predicate Dropped(b: Book, c: Book, m: Market, expiry: int, k: nat) {
    && SameShape(b, c)
    && forall q, i :: HasLeg(b, q, i) ==>
         LegAt(c, q, i) == if LegAt(b, q, i).state.PendingOpen? && ExpiresOn(m, LegAt(b, q, i).instrument, expiry) && WorkedBelow(b, k, q, i)
                           then LegAt(b, q, i).(state := Cancelled) else LegAt(b, q, i)
  }

  lemma NothingDropped(b: Book, m: Market, expiry: int)
    ensures Dropped(b, b, m, expiry, 0)
  {
  }

  lemma DroppedNext(b: Book, c: Book, c': Book, m: Market, expiry: int, k: nat)
    requires OrdersKnow(b) && k < |b.pending| && Dropped(b, c, m, expiry, k)
    requires var o := b.pending[k];
             && HasLeg(c, o.position, o.leg)
             && c'.positions == if ExpiresOn(m, o.instrument, expiry) && !o.closing && LegAt(c, o.position, o.leg).state.PendingOpen?
                                then SetLeg(c, o.position, o.leg, LegAt(c, o.position, o.leg).(state := Cancelled)).positions
                                else c.positions
    ensures Dropped(b, c', m, expiry, k + 1)
  {
    hide ExpiresOn, SetLeg;
    var o := b.pending[k];
    forall q, i | HasLeg(b, q, i)
      ensures HasLeg(c', q, i)
      ensures LegAt(c', q, i) == if LegAt(b, q, i).state.PendingOpen? && ExpiresOn(m, LegAt(b, q, i).instrument, expiry) && WorkedBelow(b, k + 1, q, i)
                                 then LegAt(b, q, i).(state := Cancelled) else LegAt(b, q, i)
    {
      WorkedBelowStep(b, k + 1, q, i);
      if ExpiresOn(m, o.instrument, expiry) && !o.closing && LegAt(c, o.position, o.leg).state.PendingOpen? {
        WithdrawnLeg(c, o, c', q, i);
      }
    }
  }

  lemma {:induction false} DropUptoEffect(b: Book, m: Market, expiry: int, k: nat)
    requires OrdersKnow(b) && k <= |b.pending| && Addressed(b, b.pending)
    ensures var (c, keep) := DropUpto(b, m, expiry, k);
            keep == KeptAfterExpiry(b.pending[..k], m, expiry) && c.trades == b.trades && Dropped(b, c, m, expiry, k)
  {
    hide ExpiresOn, OrdersKnow, Dropped, SetLeg;
    if k == 0 {
      NothingDropped(b, m, expiry);
    } else {
      DropUptoEffect(b, m, expiry, k - 1);
      var c, c' := DropUpto(b, m, expiry, k - 1).0, DropUpto(b, m, expiry, k).0;
      assert b.pending[..k][..k - 1] == b.pending[..k - 1];
      DroppedNext(b, c, c', m, expiry, k - 1);
    }
  }

  lemma KnowAfterSettling(b: Book, c: Book, m: Market, expiry: int, level: real, when: int)
    requires Matched(b) && SameShape(b, c) && c.pending == b.pending
    requires forall q, j :: HasLeg(b, q, j) ==> LegAt(c, q, j) == LegAt(b, q, j) || LegAt(c, q, j) == SettledLeg(LegAt(b, q, j), m, level, when)
    ensures OrdersKnow(c)
  {
    hide SettlePrice;
    forall j | 0 <= j < |c.pending|
      ensures var l := LegAt(c, c.pending[j].position, c.pending[j].leg);
              c.pending[j].instrument == l.instrument && (l.state.PendingOpen? ==> !c.pending[j].closing)
    {
      var o := b.pending[j];
      assert OrderMatches(o, LegAt(b, o.position, o.leg), b.delay);
    }
  }

  /** Settlement closes every live leg of the series at its intrinsic value, cancels those that never
      opened, drops the series' orders, and touches nothing else. */
  lemma SettleExpiryEffect(b: Book, pol: Policy, m: Market, expiry: int, level: real, when: int)
    requires Matched(b)
    ensures var b' := SettleExpiry(b, pol, m, expiry, level, when);
            forall p, i :: HasLeg(b, p, i) ==> LegAt(b', p, i) == AfterExpiry(LegAt(b, p, i), m, expiry, level, when)
    ensures var b' := SettleExpiry(b, pol, m, expiry, level, when);
            && b'.pending == KeptAfterExpiry(b.pending, m, expiry)
            && b'.trades == b.trades + Settlements(b, pol, m, expiry, level, when, |b.positions|, 0)
  {
    SettleUptoEffect(b, pol, m, expiry, level, when, |b.positions|, 0);
    var c := SettleUpto(b, pol, m, expiry, level, when, |b.positions|, 0);
    KnowAfterSettling(b, c, m, expiry, level, when);
    DropUptoEffect(c, m, expiry, |c.pending|);
    assert c.pending[..|c.pending|] == c.pending;
    var d := DropUpto(c, m, expiry, |c.pending|).0;
    var b' := SettleExpiry(b, pol, m, expiry, level, when);
    forall p, i | HasLeg(b, p, i) ensures LegAt(b', p, i) == AfterExpiry(LegAt(b, p, i), m, expiry, level, when) {
      WorkedIsWorking(b, p, i);
      assert HasLeg(c, p, i) && LegAt(b', p, i) == LegAt(d, p, i);
      assert WorkedBelow(c, |c.pending|, p, i) <==> WorkedBelow(b, |b.pending|, p, i);
    }
  }

  // ----- the close ----------------------------------------------------------------------------

  function AfterDay(l: Leg): Leg {
    if l.state.PendingClose? then l.(state := Open)
    else if l.state.PendingOpen? then l.(state := Cancelled)
    else l
  }

  predicate Exiting(legs: seq<Leg>) {
    exists i :: 0 <= i < |legs| && legs[i].state.PendingClose?
  }

  ghost predicate Abandoned(b: Book, c: Book, k: nat) {
    && SameShape(b, c)
    && forall q, i :: HasLeg(b, q, i) ==> LegAt(c, q, i) == if WorkedBelow(b, k, q, i) then AfterDay(LegAt(b, q, i)) else LegAt(b, q, i)
  }

  lemma AbandonedNone(b: Book)
    ensures Abandoned(b, b, 0)
  {
  }

  lemma AbandonedLeg(b: Book, c: Book, k: nat)
    requires Matched(b) && 0 < k <= |b.pending| && Abandoned(b, c, k - 1)
    ensures var o := b.pending[k - 1];
            && HasLeg(c, o.position, o.leg) && LegAt(c, o.position, o.leg) == LegAt(b, o.position, o.leg)
            && LegAt(c, o.position, o.leg).state == if o.closing then PendingClose else PendingOpen
  {
    var o := b.pending[k - 1];
    assert OrderMatches(o, LegAt(b, o.position, o.leg), b.delay);
    forall j | 0 <= j < k - 1 ensures b.pending[j].position != o.position || b.pending[j].leg != o.leg {
      DistinctLegs(b, j, k - 1);
    }
    assert !WorkedBelow(b, k - 1, o.position, o.leg);
  }

  lemma AbandonedStep(b: Book, c: Book, k: nat)
    requires 0 < k <= |b.pending| && Addressed(b, b.pending) && Abandoned(b, c, k - 1)
    requires var o := b.pending[k - 1];
             HasLeg(c, o.position, o.leg) && LegAt(c, o.position, o.leg) == LegAt(b, o.position, o.leg)
    ensures var o := b.pending[k - 1];
            Abandoned(b, SetLeg(c, o.position, o.leg, AfterDay(LegAt(c, o.position, o.leg))), k)
  {
    var o := b.pending[k - 1];
    var s := SetLeg(c, o.position, o.leg, AfterDay(LegAt(c, o.position, o.leg)));
    forall q, i | HasLeg(b, q, i)
      ensures LegAt(s, q, i) == if WorkedBelow(b, k, q, i) then AfterDay(LegAt(b, q, i)) else LegAt(b, q, i)
    {
      WorkedBelowStep(b, k, q, i);
    }
  }

  lemma {:induction false} AbandonUptoEffect(b: Book, k: nat)
    requires Addressed(b, b.pending) && Matched(b) && k <= |b.pending|
    ensures Abandoned(b, AbandonUpto(b, k).0, k) && AbandonUpto(b, k).0.trades == b.trades && ExitsUpto(b, AbandonUpto(b, k).1, k)
  {
    hide Abandoned, ExitsUpto, Matched, SetLeg;
    if k == 0 {
      AbandonedNone(b);
      NoExits(b);
    } else {
      AbandonUptoEffect(b, k - 1);
      AbandonedLeg(b, AbandonUpto(b, k - 1).0, k);
      AbandonedStep(b, AbandonUpto(b, k - 1).0, k);
      ExitsNext(b, AbandonUpto(b, k - 1).1, k);
    }
  }

  /** The positions that had a closing order among the first `k`. */
  ghost predicate ExitsUpto(b: Book, exits: set<nat>, k: nat) {
    k <= |b.pending| && forall p: nat :: p in exits <==> exists j :: 0 <= j < k && b.pending[j].position == p && b.pending[j].closing
  }

  lemma NoExits(b: Book)
    ensures ExitsUpto(b, {}, 0)
  {
  }

  lemma ExitsNext(b: Book, exits: set<nat>, k: nat)
    requires 0 < k <= |b.pending| && ExitsUpto(b, exits, k - 1)
    ensures ExitsUpto(b, if b.pending[k - 1].closing then exits + {b.pending[k - 1].position} else exits, k)
  {
  }

  /** At the close unfilled openings are cancelled and unfilled exits reopen, and a spent rule is armed
      again exactly when its position had an exit that did not get done. */
  lemma CancelWorkingEffect(b: Book)
    requires Matched(b) && RulesAddressed(b)
    ensures var b' := CancelWorking(b);
            && (forall p, i :: HasLeg(b, p, i) ==> LegAt(b', p, i) == AfterDay(LegAt(b, p, i)))
            && b'.trades == b.trades
    ensures var b' := CancelWorking(b);
            && |b'.rules| == |b.rules|
            && forall r :: 0 <= r < |b.rules| ==>
                 b'.rules[r] == b.rules[r].(fired := b.rules[r].fired && !Exiting(b.positions[b.rules[r].position].legs))
  {
    AbandonUptoEffect(b, |b.pending|);
    var (c, exits) := AbandonUpto(b, |b.pending|);
    var b' := CancelWorking(b);
    forall p, i | HasLeg(b, p, i) ensures LegAt(c, p, i) == AfterDay(LegAt(b, p, i)) {
      WorkedIsWorking(b, p, i);
    }
    forall p, i | HasLeg(b, p, i) ensures LegAt(b', p, i) == LegAt(c, p, i) { }
    forall r | 0 <= r < |b.rules|
      ensures b'.rules[r] == b.rules[r].(fired := b.rules[r].fired && !Exiting(b.positions[b.rules[r].position].legs))
    {
      var p := b.rules[r].position;
      ExitsAreExiting(b, p);
      if Exiting(b.positions[p].legs) {
        var i :| 0 <= i < |b.positions[p].legs| && b.positions[p].legs[i].state.PendingClose?;
        assert HasLeg(b, p, i) && c.positions[p].legs[i] == LegAt(c, p, i);
        assert IsOpen(c.positions[p].legs);
      }
    }
  }

  lemma ExitsAreExiting(b: Book, p: nat)
    requires Matched(b) && p < |b.positions|
    ensures (exists j :: 0 <= j < |b.pending| && b.pending[j].position == p && b.pending[j].closing) <==> Exiting(b.positions[p].legs)
  {
    if j :| 0 <= j < |b.pending| && b.pending[j].position == p && b.pending[j].closing {
      assert OrderMatches(b.pending[j], LegAt(b, p, b.pending[j].leg), b.delay);
    }
    if i :| 0 <= i < |b.positions[p].legs| && b.positions[p].legs[i].state.PendingClose? {
      assert HasLeg(b, p, i);
      OrdersOnSome(b.pending, p, i);
      var j :| 0 <= j < |b.pending| && b.pending[j].position == p && b.pending[j].leg == i;
      assert OrderMatches(b.pending[j], LegAt(b, p, i), b.delay);
    }
  }
}
