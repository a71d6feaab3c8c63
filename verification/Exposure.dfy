/** From what a strategy asks for to what it holds and what the log says it paid. */
module Exposure {
  import opened Types
  import opened Books
  import opened Matching
  import opened Ledger
  import opened Soundness
  import opened EndOfDay
  import opened Effects
  import opened RiskRules
  import opened Strategies
  import opened Fractions

  /** Units a request adds per leg: bought units are held, sold units are owed. */
  function Signed(side: Side, qty: int): int { if side == Buy then qty else -qty }

  function Occurrences(xs: seq<int>, x: int): nat {
    if xs == [] then 0 else Occurrences(xs[..|xs| - 1], x) + if xs[|xs| - 1] == x then 1 else 0
  }

  function Total(prices: seq<int>): int {
    if prices == [] then 0 else Total(prices[..|prices| - 1]) + prices[|prices| - 1]
  }

  // ----- what may be asked --------------------------------------------------------------------

  /** A request is taken if and only if it asks for a positive number of lots of known instruments that
      share one positive lot size; it then asks for that many lots of each. */
  lemma RequestLaw(registry: seq<InstrumentSpec>, legs: seq<int>, lots: int)
    requires legs != []
    ensures Contracts(registry, legs, lots).Some? <==>
              && lots > 0 && (forall i :: 0 <= i < |legs| ==> 0 <= legs[i] < |registry|)
              && forall i :: 0 <= i < |legs| ==> registry[legs[i]].lotSize == registry[legs[0]].lotSize > 0
    ensures Contracts(registry, legs, lots).Some? ==>
              Contracts(registry, legs, lots).value > 0
              && forall i :: 0 <= i < |legs| ==> Contracts(registry, legs, lots).value == registry[legs[i]].lotSize * lots
  {
    if lots > 0 { LotProduct(SpecOf(registry, legs[0]).lotSize, lots); }
    if Contracts(registry, legs, lots).None? && lots > 0 && Known(registry, legs) && SameLot(registry, legs) {
      assert registry[legs[0]].lotSize <= 0;
    }
  }

  lemma LotProduct(size: int, lots: int)
    requires lots > 0
    ensures size * lots > 0 <==> size > 0
  {
  }

  // ----- the new position ---------------------------------------------------------------------

  /** Position `p` of `b` was asked for as `side`, `qty` of each of `legs`. */
  ghost predicate AskedFor(b: Book, p: nat, side: Side, qty: int, legs: seq<int>) {
    && p < |b.positions| && |b.positions[p].legs| == |legs|
    && forall i :: 0 <= i < |legs| ==>
         LegAt(b, p, i).instrument == legs[i] && LegAt(b, p, i).qty == Signed(side, qty)
  }

  /** One opening order per leg, on the side asked for, waiting out the delay. */
  ghost predicate OrderedAs(b: Book, p: nat, side: Side, qty: int, legs: seq<int>, now: int) {
    |b.pending| >= |legs|
    && forall i :: 0 <= i < |legs| ==>
         b.pending[|b.pending| - |legs| + i] == Order(p, i, legs[i], side, qty, now, now + b.delay, false, false)
  }

  /** Asking for lots opens a position with exactly the units, and queues exactly the orders, asked for;
      nothing else changes. */
  lemma RequestOpens(b: Book, registry: seq<InstrumentSpec>, side: Side, legs: seq<int>, lots: int, name: string, now: int)
    requires Ready(b) && legs != [] && Contracts(registry, legs, lots).Some?
    ensures var qty := Contracts(registry, legs, lots).value;
            var (b', reply) := Apply(b, registry, TradeLots(side, legs, lots, name), now);
            reply == Opened(|b.positions|) && Requested(b, b', side, qty, legs, name, now)
  {
    hide Requested, SubmitOpen;
    OpeningRequested(b, side, Contracts(registry, legs, lots).value, legs, name, now);
  }

  ghost predicate Requested(b: Book, b': Book, side: Side, qty: int, legs: seq<int>, name: string, now: int) {
    && |b'.positions| == |b.positions| + 1 && b'.positions[..|b.positions|] == b.positions && b'.positions[|b.positions|].name == name
    && AskedFor(b', |b.positions|, side, qty, legs) && OrderedAs(b', |b.positions|, side, qty, legs, now)
    && |b'.pending| == |b.pending| + |legs| && b'.pending[..|b.pending|] == b.pending
    && b'.trades == b.trades && b'.rules == b.rules && b'.delay == b.delay
    && forall i :: 0 <= i < |legs| ==> LegAt(b', |b.positions|, i).state.PendingOpen?
  }

  lemma OpeningRequested(b: Book, side: Side, qty: int, legs: seq<int>, name: string, now: int)
    requires CanOpen(legs, qty)
    ensures Requested(b, SubmitOpen(b, name, legs, side, qty, now), side, qty, legs, name, now)
  {
  }

  /** What was asked for is what the position is, for as long as the book lives. */
  lemma RequestIsKept(b: Book, b': Book, p: nat, side: Side, qty: int, legs: seq<int>, reopening: bool)
    requires AskedFor(b, p, side, qty, legs) && Evolves(b, b', reopening)
    ensures AskedFor(b', p, side, qty, legs)
  {
    forall i | 0 <= i < |legs| ensures LegAt(b', p, i).instrument == legs[i] && LegAt(b', p, i).qty == Signed(side, qty) {
      assert HasLeg(b, p, i) && LegStep(LegAt(b, p, i), LegAt(b', p, i), reopening);
    }
  }

  // ----- what is held -------------------------------------------------------------------------

  lemma {:induction false} HeldOfAll(ls: seq<Leg>, xs: seq<int>, x: int, units: int)
    requires |ls| == |xs| && forall i :: 0 <= i < |xs| ==> ls[i].Live() && ls[i].instrument == xs[i] && ls[i].qty == units
    ensures LegSum(ls, HeldQty(x)) == units * Occurrences(xs, x)
  {
    if xs != [] {
      var n := |xs| - 1;
      HeldOfAll(ls[..n], xs[..n], x, units);
    }
  }

  function Entries(ls: seq<Leg>): seq<int> {
    seq(|ls|, i requires 0 <= i < |ls| => ls[i].entry)
  }

  lemma {:induction false} PaidForAll(ls: seq<Leg>, units: int)
    requires forall i :: 0 <= i < |ls| ==> ls[i].Live() && ls[i].qty == units
    ensures LegSum(ls, LegCash) == -(units * Total(Entries(ls)))
  {
    if ls != [] {
      var n := |ls| - 1;
      PaidForAll(ls[..n], units);
      assert Entries(ls)[..n] == Entries(ls[..n]);
      Spread(units, Total(Entries(ls[..n])), ls[n].entry);
    }
  }

  lemma Spread(units: int, a: int, b: int)
    ensures units * (a + b) == units * a + b * units
  {
  }

  /** Whenever all of a position's legs are held, it holds exactly the units asked for, positive if bought
      and negative if sold; and the log shows, under that position, that the entries were paid if it was
      bought and received if it was sold. */
  lemma HeldAsAsked(b: Book, p: nat, side: Side, qty: int, legs: seq<int>, x: int)
    requires Balanced(b) && AskedFor(b, p, side, qty, legs)
    requires forall i :: HasLeg(b, p, i) ==> LegAt(b, p, i).Live()
    ensures LegSum(b.positions[p].legs, HeldQty(x)) == Signed(side, qty) * Occurrences(legs, x)
    ensures TradeSum(b.trades, PositionCash(p)) == -(Signed(side, qty) * Total(Entries(b.positions[p].legs)))
  {
    var ls := b.positions[p].legs;
    forall i | 0 <= i < |ls| ensures ls[i].Live() && ls[i].instrument == legs[i] && ls[i].qty == Signed(side, qty) {
      assert HasLeg(b, p, i) && LegAt(b, p, i) == ls[i];
    }
    HeldOfAll(ls, legs, x, Signed(side, qty));
    PaidForAll(ls, Signed(side, qty));
    assert TradeSum(b.trades, PositionCash(p)) == CashIn(b, p);
  }

  // ----- from the request to the fill ---------------------------------------------------------

  /** Every leg of the request can trade now, at these prices. */
  ghost predicate Tradeable(pol: Policy, m: Market, side: Side, qty: int, legs: seq<int>, prices: seq<int>) {
    |prices| == |legs| && forall i :: 0 <= i < |legs| ==>
      m.Latest(legs[i]).Some? && pol.fill(m.Latest(legs[i]).value, side, qty) == Some(prices[i])
  }

  lemma LegFills(b: Book, pol: Policy, m: Market, p: nat, i: nat, k: nat, price: int)
    requires Matched(b) && k < |b.pending| && HasLeg(b, p, i) && LegAt(b, p, i).state.PendingOpen?
    requires var o := b.pending[k];
             && o.position == p && o.leg == i && !o.closing && o.eligibleAt <= m.now
             && m.Latest(o.instrument).Some? && pol.fill(m.Latest(o.instrument).value, o.side, o.qty) == Some(price)
    ensures var b' := ProcessPending(b, pol, m);
            HasLeg(b', p, i) && LegAt(b', p, i).state.Open? && LegAt(b', p, i).entry == price && LegAt(b', p, i).entryTs == m.now
  {
    ProcessPendingEffect(b, pol, m);
    var o := b.pending[k];
    assert LegAt(ProcessPending(b, pol, m), o.position, o.leg) == AfterFill(LegAt(b, o.position, o.leg), o, pol, m);
  }

  /** A request that is taken, and whose orders all find a price in a later pass, is held in full after
      it: the units asked for of every instrument, bought up or sold down, each leg entered at its price;
      and the log's cash for it is what was paid or received. */
  lemma RequestIsFilled(b: Book, registry: seq<InstrumentSpec>, side: Side, legs: seq<int>, lots: int, name: string, now: int,
                        pol: Policy, m: Market, prices: seq<int>, x: int)
    requires Ready(b) && Sound(b) && legs != [] && Contracts(registry, legs, lots).Some?
    requires now + b.delay <= m.now && Tradeable(pol, m, side, Contracts(registry, legs, lots).value, legs, prices)
    ensures var qty := Contracts(registry, legs, lots).value;
            var b1 := Apply(b, registry, TradeLots(side, legs, lots, name), now).0;
            var b2, p := ProcessPending(b1, pol, m), |b.positions|;
            && AskedFor(b2, p, side, qty, legs)
            && (forall i :: 0 <= i < |legs| ==> LegAt(b2, p, i).state.Open? && LegAt(b2, p, i).entry == prices[i])
            && LegSum(b2.positions[p].legs, HeldQty(x)) == Signed(side, qty) * Occurrences(legs, x)
            && TradeSum(b2.trades, PositionCash(p)) == -(Signed(side, qty) * Total(prices))
  {
    hide MatchedBut, Balanced, Sane, Timely, SpentRules, Evolves, ProcessPending, Contracts, Apply;
    var qty := Contracts(registry, legs, lots).value;
    var p := |b.positions|;
    var b1 := Apply(b, registry, TradeLots(side, legs, lots, name), now).0;
    RequestOpens(b, registry, side, legs, lots, name, now);
    RequestSound(b, registry, side, legs, lots, name, now);
    ProcessPendingSound(b1, pol, m);
    var b2 := ProcessPending(b1, pol, m);
    RequestIsKept(b1, b2, p, side, qty, legs, false);
    forall i | 0 <= i < |legs| ensures HasLeg(b2, p, i) && LegAt(b2, p, i).state.Open? && LegAt(b2, p, i).entry == prices[i] {
      LegFills(b1, pol, m, p, i, |b1.pending| - |legs| + i, prices[i]);
    }
    SoundParts(b2);
    HeldAsAsked(b2, p, side, qty, legs, x);
    assert Entries(b2.positions[p].legs) == prices by {
      forall i | 0 <= i < |legs| ensures Entries(b2.positions[p].legs)[i] == prices[i] {
        assert LegAt(b2, p, i) == b2.positions[p].legs[i];
      }
    }
  }

  lemma SoundParts(b: Book)
    requires Sound(b)
    ensures Matched(b) && Balanced(b)
  {
  }

  lemma RequestSound(b: Book, registry: seq<InstrumentSpec>, side: Side, legs: seq<int>, lots: int, name: string, now: int)
    requires Ready(b) && Sound(b) && legs != [] && Contracts(registry, legs, lots).Some?
    ensures var b1 := Apply(b, registry, TradeLots(side, legs, lots, name), now).0;
            Sound(b1) && Matched(b1) && b1.delay == b.delay && Addressed(b1, b1.pending)
  {
    hide Balanced, Sane, Timely, SpentRules, LegsStep, Contracts, SubmitOpen;
    RequestLaw(registry, legs, lots);
    SubmitOpenSound(b, name, legs, side, Contracts(registry, legs, lots).value, now);
  }

  /** Bought at positive prices, a position has cost money; sold, it has brought some in. */
  lemma CashFollowsSide(side: Side, qty: int, prices: seq<int>)
    requires qty > 0 && prices != [] && forall i :: 0 <= i < |prices| ==> prices[i] > 0
    ensures var cash := -(Signed(side, qty) * Total(prices)); if side == Buy then cash < 0 else cash > 0
  {
    TotalPositive(prices);
    assert qty * Total(prices) > 0;
    assert -qty * Total(prices) == -(qty * Total(prices));
  }

  lemma {:induction false} TotalPositive(prices: seq<int>)
    requires prices != [] && forall i :: 0 <= i < |prices| ==> prices[i] > 0
    ensures Total(prices) > 0
  {
    var n := |prices| - 1;
    if n > 0 {
      TotalPositive(prices[..n]);
    } else {
      assert prices[..0] == [];
    }
  }

  // ----- the way out --------------------------------------------------------------------------

  /** An exit that finds a price closes its leg at it. */
  lemma LegExits(b: Book, pol: Policy, m: Market, p: nat, i: nat, k: nat, price: int)
    requires Matched(b) && k < |b.pending| && HasLeg(b, p, i)
    requires var o := b.pending[k];
             && o.position == p && o.leg == i && o.closing && o.eligibleAt <= m.now
             && m.Latest(o.instrument).Some? && pol.fill(m.Latest(o.instrument).value, o.side, o.qty) == Some(price)
    ensures var b' := ProcessPending(b, pol, m);
            HasLeg(b', p, i) && LegAt(b', p, i) == LegAt(b, p, i).(state := Closed, exit := price, exitTs := m.now)
  {
    ProcessPendingEffect(b, pol, m);
    var o := b.pending[k];
    assert LegAt(ProcessPending(b, pol, m), o.position, o.leg) == AfterFill(LegAt(b, o.position, o.leg), o, pol, m);
  }

  /** Closing a leg that is open orders its whole quantity on the other side; closing any other does nothing. */
  lemma CloseLegLaw(b: Book, registry: seq<InstrumentSpec>, p: nat, i: nat, now: int)
    requires Ready(b) && HasLeg(b, p, i)
    ensures var l, (b', reply) := LegAt(b, p, i), Apply(b, registry, CloseLeg(p, i), now);
            && reply == Accepted
            && (!l.state.Open? ==> b' == b)
            && (l.state.Open? ==>
                  && LegAt(b', p, i) == l.(state := PendingClose) && b'.trades == b.trades
                  && b'.pending == b.pending + [Order(p, i, l.instrument, if l.qty < 0 then Buy else Sell, if l.qty < 0 then -l.qty else l.qty,
                                                      now, now + b.delay, true, false)])
  {
  }

  /** Closing a position withdraws its unfilled openings and orders the exit of what it holds. */
  lemma ClosePositionLaw(b: Book, registry: seq<InstrumentSpec>, p: nat, now: int)
    requires Ready(b) && Matched(b) && p < |b.positions|
    ensures var (b', reply) := Apply(b, registry, ClosePosition(p), now);
            && reply == Accepted && b'.trades == b.trades && b'.rules == b.rules
            && forall q, i :: HasLeg(b, q, i) ==>
                 && HasLeg(b', q, i)
                 && var l, l' := LegAt(b, q, i), LegAt(b', q, i);
                    if q == p && l.state.PendingOpen? then l' == l.(state := Cancelled)
                    else if q == p && l.state.Open? then l' == l.(state := PendingClose)
                    else l' == l
  {
    hide SubmitClose, OrderMatches, Kept, Exits;
    SubmitCloseEffect(b, p, now, false);
  }

  /** A request that cannot be met changes nothing. */
  lemma RefusalLaw(b: Book, registry: seq<InstrumentSpec>, side: Side, legs: seq<int>, lots: int, name: string, p: int, i: int, now: int)
    requires Ready(b)
    ensures legs == [] ==> Apply(b, registry, TradeLots(side, legs, lots, name), now) == (b, NoLegs)
    ensures legs != [] && Contracts(registry, legs, lots).None? ==> Apply(b, registry, TradeLots(side, legs, lots, name), now) == (b, Rejected)
    ensures p < 0 || p >= |b.positions| ==> Apply(b, registry, ClosePosition(p), now) == (b, Rejected)
    ensures !HasLeg(b, p, i) ==> Apply(b, registry, CloseLeg(p, i), now) == (b, Rejected)
  {
    hide SubmitClose, SubmitOpen, SubmitCloseLeg, Contracts;
  }

  /** A rule is accepted for a position that exists and, if it is a percentage, when that is positive; it
      then waits, unspent, behind the ones before it. */
  lemma AttachLaw(b: Book, registry: seq<InstrumentSpec>, kind: RuleKind, p: int, leg: Option<nat>, now: int)
    requires Ready(b)
    ensures var (b', reply) := Apply(b, registry, Attach(kind, p, leg), now);
            if 0 <= p < |b.positions| && (kind.ExitAt? || kind.threshold > 0.0)
            then reply == Accepted && b' == b.(rules := b.rules + [Rule(kind, p, leg, false)])
            else reply == Rejected && b' == b
  {
  }

  // ----- who asked ----------------------------------------------------------------------------

  /** Orders a strategy asks for are its own; orders a rule asks for are marked as the rule's. */
  lemma RequestsAreMarked(b: Book, p: nat, now: int, fromRule: bool)
    requires Matched(b) && p < |b.positions|
    ensures var b' := SubmitClose(b, p, now, fromRule);
            forall k :: 0 <= k < |b'.pending| && b'.pending[k] !in b.pending ==>
              && b'.pending[k].fromRule == fromRule && b'.pending[k].closing && b'.pending[k].position == p
              && b'.pending[k].submittedAt == now && b'.pending[k].eligibleAt == now + b.delay
  {
    var b' := SubmitClose(b, p, now, fromRule);
    SubmitCloseEffect(b, p, now, fromRule);
    ExitsAreMarked(b, p, |b.positions[p].legs|, now, fromRule);
    KeptAreOld(b.pending, p);
    forall k | 0 <= k < |b'.pending| && b'.pending[k] !in b.pending
      ensures b'.pending[k] in Exits(b, p, |b.positions[p].legs|, now, fromRule)
    {
      assert b'.pending[k] in Kept(b.pending, p) + Exits(b, p, |b.positions[p].legs|, now, fromRule);
    }
  }

  lemma {:induction false} KeptAreOld(orders: seq<Order>, p: nat)
    ensures forall o :: o in Kept(orders, p) ==> o in orders
  {
    if orders != [] {
      KeptAreOld(orders[..|orders| - 1], p);
    }
  }

  lemma {:induction false} ExitsAreMarked(b: Book, p: nat, n: nat, now: int, fromRule: bool)
    requires p < |b.positions| && n <= |b.positions[p].legs|
    ensures forall o :: o in Exits(b, p, n, now, fromRule) ==>
              o.fromRule == fromRule && o.closing && o.position == p && o.submittedAt == now && o.eligibleAt == now + b.delay
  {
    if n > 0 {
      ExitsAreMarked(b, p, n - 1, now, fromRule);
    }
  }

  /** Every order from before is as it was, or this one was asked for by a rule now. */
  ghost predicate OnlyRules(b: Book, b': Book, now: int) {
    forall k :: 0 <= k < |b'.pending| ==> b'.pending[k] in b.pending || (b'.pending[k].fromRule && b'.pending[k].submittedAt == now)
  }

  lemma OnlyRulesTransitive(a: Book, b: Book, c: Book, now: int)
    requires OnlyRules(a, b, now) && OnlyRules(b, c, now)
    ensures OnlyRules(a, c, now)
  {
    forall k | 0 <= k < |c.pending| ensures c.pending[k] in a.pending || (c.pending[k].fromRule && c.pending[k].submittedAt == now) {
      if c.pending[k] in b.pending {
        var j :| 0 <= j < |b.pending| && b.pending[j] == c.pending[k];
      }
    }
  }

  lemma RuleOrdersMarked(b: Book, m: Market, r: nat)
    requires Sound(b) && r < |b.rules| && RulesAddressed(b) && Addressed(b, b.pending)
    ensures OnlyRules(b, RunRule(b, m, r), m.now)
  {
    hide SubmitClose, Balanced, Sane, Moot, Armed, Triggers;
    var rule := b.rules[r];
    var c := Spend(b, r).(rulesFired := b.rulesFired + 1);
    if rule.leg.None? {
      SpendConsistent(b, r, b.rulesFired + 1);
      RequestsAreMarked(c, rule.position, m.now, true);
    }
  }

  /** A pass over the rules orders nothing but exits of its own. */
  lemma {:induction false} PassMarksOrders(b: Book, m: Market, r: nat)
    requires RulesAddressed(b) && Addressed(b, b.pending) && Sound(b) && r <= |b.rules|
    ensures OnlyRules(b, RulesUpto(b, m, r), m.now)
  {
    hide Sound, RunRule, OnlyRules;
    if r > 0 {
      PassMarksOrders(b, m, r - 1);
      RulesUptoSound(b, m, r - 1);
      var c := RulesUpto(b, m, r - 1);
      RuleOrdersMarked(c, m, r - 1);
      OnlyRulesTransitive(b, c, RulesUpto(b, m, r), m.now);
    } else {
      NothingOrdered(b, m.now);
    }
  }

  lemma NothingOrdered(b: Book, now: int)
    ensures OnlyRules(b, b, now)
  {
  }

  /** And a strategy's action orders nothing in a rule's name. */
  lemma ActionsAreOwn(b: Book, registry: seq<InstrumentSpec>, a: Action, now: int)
    requires Ready(b) && Sound(b)
    ensures var b' := Apply(b, registry, a, now).0;
            forall k :: 0 <= k < |b'.pending| ==> b'.pending[k] in b.pending || (!b'.pending[k].fromRule && b'.pending[k].submittedAt == now)
  {
    hide SubmitClose, Balanced, Sane, Timely, SpentRules, Contracts;
    match a
    case TradeLots(_, _, _, _) =>
    case ClosePosition(p) =>
      if 0 <= p < |b.positions| { RequestsAreMarked(b, p, now, false); }
    case CloseLeg(_, _) =>
    case Attach(_, _, _) =>
  }

  /** A trade is attributed as its order was, and flagged when it took more than was shown or paid too wide
      a spread. */
  lemma FlagsMean(o: Order, pol: Policy, m: Market)
    requires FillPrice(pol, m, o).Some?
    ensures m.now >= o.eligibleAt && m.Latest(o.instrument).Some?
    ensures var q, t := m.Latest(o.instrument).value, TradeOf(o, pol, m);
            && pol.fill(q, o.side, o.qty) == Some(t.price) && t.fillTs == m.now && t.signalTs == o.submittedAt
            && t.side == o.side && t.qty == o.qty && t.position == o.position && t.instrument == o.instrument
            && t.fromRule == o.fromRule && !t.settled
            && t.cost == pol.cost(CostContext(SpecOf(m.registry, o.instrument), t.price, o.qty, o.side, false, 0))
            && (t.oversized <==> if o.side == Buy then 0 < q.askQty < o.qty else 0 < q.bidQty < o.qty)
            && (q.Mid() > 0 ==> (t.illiquid <==> (q.ask - q.bid) as real > pol.illiquidRatio * q.Mid() as real))
            && (q.Mid() <= 0 ==> !t.illiquid)
  {
    var q := m.Latest(o.instrument).value;
    if q.Mid() > 0 { CompareParts(q.Spread() as real, q.Mid() as real, pol.illiquidRatio); }
  }
}
