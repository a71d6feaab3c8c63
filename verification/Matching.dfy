/** Orders and legs correspond one to one, and legs move only along their life cycle. */
module Matching {
  import opened Types
  import opened Books

  /** How many of the orders work on leg `i` of position `p`. */
  function OrdersOn(orders: seq<Order>, p: int, i: int): nat {
    if orders == [] then 0
    else OrdersOn(orders[..|orders| - 1], p, i)
         + if orders[|orders| - 1].position == p && orders[|orders| - 1].leg == i then 1 else 0
  }

  predicate OrderMatches(o: Order, l: Leg, delay: int) {
    && o.instrument == l.instrument && o.qty == Abs(l.qty) && o.qty > 0
    && o.eligibleAt == o.submittedAt + delay
    && o.side == (if o.closing then l.ClosingSide() else l.OpeningSide())
    && l.state == if o.closing then PendingClose else PendingOpen
  }

  /** Every order belongs to a leg waiting for it, and every waiting leg has exactly one order.
      Legs closed in a `dead` instrument are exempt: settlement closes legs before it drops their orders. */
  ghost predicate MatchedBut(b: Book, dead: set<int>) {
    && Addressed(b, b.pending)
    && (forall k :: 0 <= k < |b.pending| ==>
          var l := LegAt(b, b.pending[k].position, b.pending[k].leg);
          OrderMatches(b.pending[k], l, b.delay)
          || (b.pending[k].instrument == l.instrument && l.instrument in dead && l.state == Closed))
    && (forall p, i :: HasLeg(b, p, i) ==>
          var l := LegAt(b, p, i);
          OrdersOn(b.pending, p, i) == (if l.Working() then 1 else 0) || (l.instrument in dead && l.state == Closed))
  }

  ghost predicate Matched(b: Book) {
    MatchedBut(b, {})
  }

  // ----- the life cycle -----------------------------------------------------------------------

  /** A leg a spent rule must not be left looking at. */
  predicate Exposed(l: Leg) {
    l.state.Open? || l.state.PendingOpen?
  }

  /** One or more steps of a leg's life.  Closed and cancelled legs never change again, an entry is
      never rewritten, and a leg becomes exposed only by an abandoned exit. */
  predicate LegStep(l: Leg, l': Leg, reopening: bool) {
    && l'.instrument == l.instrument && l'.qty == l.qty
    && (l.state.Closed? || l.state.Cancelled? ==> l' == l)
    && (l.Filled() ==> l'.Filled() && l'.entry == l.entry && l'.entryTs == l.entryTs)
    && (l'.state.PendingOpen? ==> l.state.PendingOpen?)
    && (Exposed(l') ==> Exposed(l) || (reopening && l.state.PendingClose?))
  }

  ghost predicate LegsStep(b: Book, b': Book, reopening: bool) {
    && |b.positions| <= |b'.positions|
    && (forall p :: 0 <= p < |b.positions| ==> |b'.positions[p].legs| == |b.positions[p].legs|)
    && (forall p, i :: HasLeg(b, p, i) ==> LegStep(LegAt(b, p, i), LegAt(b', p, i), reopening))
  }

  /** The history only grows: trades are never rewritten and the delay never changes. */
  ghost predicate Evolves(b: Book, b': Book, reopening: bool) {
    LegsStep(b, b', reopening) && b.trades <= b'.trades && b'.delay == b.delay
  }

  lemma EvolvesReflexive(b: Book, reopening: bool)
    ensures Evolves(b, b, reopening)
  {
  }

  lemma EvolvesTransitive(a: Book, b: Book, c: Book, reopening: bool)
    requires Evolves(a, b, reopening) && Evolves(b, c, reopening)
    ensures Evolves(a, c, reopening)
  {
    forall p, i | HasLeg(a, p, i) ensures LegStep(LegAt(a, p, i), LegAt(c, p, i), reopening) {
      assert HasLeg(b, p, i);
      assert LegStep(LegAt(a, p, i), LegAt(b, p, i), reopening);
      assert LegStep(LegAt(b, p, i), LegAt(c, p, i), reopening);
    }
  }

  /** Every leg holds a non-zero quantity, and only a closed leg was settled. */
  ghost predicate Sane(b: Book) {
    forall p, i :: HasLeg(b, p, i) ==> LegAt(b, p, i).qty != 0 && (LegAt(b, p, i).settled ==> LegAt(b, p, i).state == Closed)
  }

  // ----- counting -----------------------------------------------------------------------------

  lemma {:induction false} OrdersOnConcat(a: seq<Order>, c: seq<Order>, p: int, i: int)
    ensures OrdersOn(a + c, p, i) == OrdersOn(a, p, i) + OrdersOn(c, p, i)
  {
    if c == [] {
      assert a + c == a;
    } else {
      var n := |c| - 1;
      assert (a + c)[..|a + c| - 1] == a + c[..n];
      OrdersOnConcat(a, c[..n], p, i);
    }
  }

  lemma OrdersOnSplice(left: seq<Order>, o: Order, right: seq<Order>, p: int, i: int)
    ensures OrdersOn(left + [o] + right, p, i)
         == OrdersOn(left + right, p, i) + if o.position == p && o.leg == i then 1 else 0
  {
    OrdersOnConcat(left + [o], right, p, i);
    OrdersOnConcat(left, [o], p, i);
    OrdersOnConcat(left, right, p, i);
    assert [o][..0] == [];
  }

  lemma {:induction false} OrdersOnSome(orders: seq<Order>, p: int, i: int)
    ensures OrdersOn(orders, p, i) > 0 <==> exists k :: 0 <= k < |orders| && orders[k].position == p && orders[k].leg == i
  {
    if orders != [] {
      var n := |orders| - 1;
      OrdersOnSome(orders[..n], p, i);
      if OrdersOn(orders[..n], p, i) > 0 {
        var k :| 0 <= k < n && orders[..n][k].position == p && orders[..n][k].leg == i;
        assert orders[k].position == p && orders[k].leg == i;
      }
      if k :| 0 <= k < |orders| && orders[k].position == p && orders[k].leg == i && k < n {
        assert orders[..n][k].position == p && orders[..n][k].leg == i;
      }
    }
  }

  /** No two orders work on the same leg. */
  lemma OrdersDistinct(b: Book, left: seq<Order>, o: Order, right: seq<Order>, dead: set<int>)
    requires b.pending == left + [o] + right && MatchedBut(b, dead)
    requires HasLeg(b, o.position, o.leg) && LegAt(b, o.position, o.leg).state != Closed
    ensures OrdersOn(left + right, o.position, o.leg) == 0
  {
    assert b.pending[|left|] == o;
    OrdersOnSplice(left, o, right, o.position, o.leg);
  }

  // ----- the two primitive moves --------------------------------------------------------------

  /** An order leaves the queue and its leg stops working. */
  lemma RemoveOrder(b: Book, left: seq<Order>, o: Order, right: seq<Order>, l': Leg, dead: set<int>, b': Book)
    requires b.pending == left + [o] + right && MatchedBut(b, dead)
    requires HasLeg(b, o.position, o.leg)
    requires var l := LegAt(b, o.position, o.leg);
             l'.instrument == l.instrument && l'.qty == l.qty && !l'.Working() && (l.state == Closed ==> l' == l)
    requires b'.positions == SetLeg(b, o.position, o.leg, l').positions
    requires b'.pending == left + right && b'.delay == b.delay
    ensures MatchedBut(b', dead)
  {
    assert b.pending[|left|] == o;
    var s := SetLeg(b, o.position, o.leg, l');
    forall k | 0 <= k < |b'.pending|
      ensures HasLeg(b', b'.pending[k].position, b'.pending[k].leg)
      ensures var l := LegAt(b', b'.pending[k].position, b'.pending[k].leg);
              OrderMatches(b'.pending[k], l, b'.delay) || (b'.pending[k].instrument == l.instrument && l.instrument in dead && l.state == Closed)
    {
      var x := b'.pending[k];
      assert x == b.pending[if k < |left| then k else k + 1];
      assert HasLeg(s, x.position, x.leg);
      if x.position == o.position && x.leg == o.leg && LegAt(b, x.position, x.leg).state != Closed {
        OrdersDistinct(b, left, o, right, dead);
        OrdersOnSome(left + right, o.position, o.leg);
        assert false;
      }
    }
    forall p, i | HasLeg(b', p, i)
      ensures var l := LegAt(b', p, i);
              OrdersOn(b'.pending, p, i) == (if l.Working() then 1 else 0) || (l.instrument in dead && l.state == Closed)
    {
      assert HasLeg(b, p, i) && LegAt(b', p, i) == LegAt(s, p, i);
      OrdersOnSplice(left, o, right, p, i);
    }
  }

  /** An open leg starts to close and its closing order joins the queue. */
  lemma CloseLegMatched(b: Book, p: nat, i: nat, now: int, fromRule: bool)
    requires HasLeg(b, p, i) && Matched(b) && Sane(b)
    ensures var b' := SubmitCloseLeg(b, p, i, now, fromRule);
            Matched(b') && Sane(b') && Evolves(b, b', false)
  {
    var b' := SubmitCloseLeg(b, p, i, now, fromRule);
    if LegAt(b, p, i).state == Open {
      var o := ClosingOrder(b, p, i, now, fromRule);
      assert b'.pending == b.pending + [o];
      forall q, j | HasLeg(b', q, j)
        ensures OrdersOn(b'.pending, q, j) == if LegAt(b', q, j).Working() then 1 else 0
        ensures LegStep(LegAt(b, q, j), LegAt(b', q, j), false)
      {
        assert HasLeg(b, q, j);
        OrdersOnConcat(b.pending, [o], q, j);
        assert [o][..0] == [];
      }
      forall k | 0 <= k < |b'.pending|
        ensures OrderMatches(b'.pending[k], LegAt(b', b'.pending[k].position, b'.pending[k].leg), b'.delay)
      {
        if k < |b.pending| {
          var x := b.pending[k];
          assert OrderMatches(x, LegAt(b, x.position, x.leg), b.delay);
        }
      }
    }
  }
}
