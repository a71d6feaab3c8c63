/** The portfolio object: its collections, its loops, and the proof that each method is the operation
    of `Books` on the abstract state. */
module PortfolioObject {
  import opened Types
  import opened Books

  class Portfolio {
    const pol: Policy
    const delay: int
    var positions: seq<Position>
    var pending: seq<Order>
    var rules: seq<Rule>
    var trades: seq<Trade>
    var realized: int
    var costs: int
    var illiquid: nat
    var oversized: nat
    var cancelled: nat
    var settledLegs: nat
    var rulesFired: nat
    var closingFromRule: bool
    ghost var submitted: nat

    ghost function Contents(): Book
      reads this
    {
      Book(delay, positions, pending, rules, trades, realized, costs,
           illiquid, oversized, cancelled, settledLegs, rulesFired, submitted)
    }

    /** Orders and rules name positions and legs that exist. */
    ghost predicate Valid()
      reads this
    {
      Addressed(Contents(), pending) && RulesAddressed(Contents())
    }

    constructor (pol: Policy, delay: int)
      requires delay >= 0
      ensures Valid() && !closingFromRule && Contents() == EmptyBook(delay) && this.pol == pol
    {
      this.pol, this.delay := pol, delay;
      positions, pending, rules, trades := [], [], [], [];
      realized, costs, illiquid, oversized, cancelled, settledLegs, rulesFired, submitted := 0, 0, 0, 0, 0, 0, 0, 0;
      closingFromRule := false;
    }

    method PutLeg(p: nat, i: nat, leg: Leg)
      requires HasLeg(Contents(), p, i)
      modifies this`positions
      ensures Contents() == SetLeg(old(Contents()), p, i, leg)
    {
      positions := positions[p := positions[p].(legs := positions[p].legs[i := leg])];
    }

    method Submit(order: Order)
      modifies this`pending, this`submitted
      ensures Contents() == old(Contents()).(pending := old(pending) + [order.(fromRule := closingFromRule)],
                                             submitted := old(submitted) + 1)
    {
      pending := pending + [order.(fromRule := closingFromRule)];
      submitted := submitted + 1;
    }

    /** The new position's id, or nothing when the order has no legs or no quantity. */
    method SubmitOpen(name: string, instruments: seq<int>, side: Side, qty: int, now: int) returns (id: Option<nat>)
      requires Valid() && !closingFromRule
      modifies this
      ensures Valid() && !closingFromRule
      ensures CanOpen(instruments, qty) ==>
                id == Some(|old(positions)|) && Contents() == Books.SubmitOpen(old(Contents()), name, instruments, side, qty, now)
      ensures !CanOpen(instruments, qty) ==> id == None && Contents() == old(Contents())
    {
      if |instruments| == 0 || qty <= 0 { return None; }
      var pid := |positions|;
      ghost var goal := Books.SubmitOpen(Contents(), name, instruments, side, qty, now);
      positions := positions + [Position(name, [])];
      var signed := if side == Sell then -qty else qty;
      var k := 0;
      while k < |instruments|
        invariant 0 <= k <= |instruments| && !closingFromRule
        invariant positions == old(positions) + [Position(name, goal.positions[pid].legs[..k])]
        invariant pending == old(pending) + goal.pending[|old(pending)|..][..k]
        invariant Contents() == old(Contents()).(positions := positions, pending := pending, submitted := old(submitted) + k)
      {
        var legs := positions[pid].legs + [NewLeg(instruments[k], signed)];
        positions := positions[pid := positions[pid].(legs := legs)];
        Submit(Order(pid, |legs| - 1, instruments[k], side, qty, now, now + delay, false, false));
        assert legs == goal.positions[pid].legs[..k + 1];
        assert pending == old(pending) + goal.pending[|old(pending)|..][..k + 1];
        k := k + 1;
      }
      assert goal.positions[pid].legs[..k] == goal.positions[pid].legs;
      assert Contents() == goal;
      AddressedAfterOpen(old(Contents()), name, instruments, side, qty, now);
      return Some(pid);
    }

    method SubmitCloseLeg(id: nat, leg: nat, now: int) returns (known: bool)
      requires Valid()
      modifies this
      ensures Valid() && closingFromRule == old(closingFromRule)
      ensures known == HasLeg(old(Contents()), id, leg)
      ensures Contents() == if known then Books.SubmitCloseLeg(old(Contents()), id, leg, now, closingFromRule) else old(Contents())
    {
      if id >= |positions| || leg >= |positions[id].legs| { return false; }
      var l := positions[id].legs[leg];
      if l.state != Open { return true; }
      PutLeg(id, leg, l.(state := PendingClose));
      Submit(Order(id, leg, l.instrument, l.ClosingSide(), Abs(l.qty), now, now + delay, true, false));
      return true;
    }

    /** Withdraws the position's unfilled openings. */
    method WithdrawOrders(id: nat)
      requires Valid()
      modifies this`positions, this`pending, this`cancelled
      ensures Valid() && Contents() == WithdrawOpenings(old(Contents()), id)
    {
      hide SetLeg, WithdrawUpto;
      NothingWithdrawn(Contents(), id);
      var keep: seq<Order> := [];
      var k := 0;
      while k < |pending|
        invariant 0 <= k <= |pending| && pending == old(pending)
        invariant (Contents(), keep) == WithdrawUpto(old(Contents()), id, k)
      {
        var o := pending[k];
        WithdrawNext(old(Contents()), id, k);
        if o.position == id && !o.closing {
          PutLeg(o.position, o.leg, positions[o.position].legs[o.leg].(state := Cancelled));
          cancelled := cancelled + 1;
        } else {
          keep := keep + [o];
        }
        k := k + 1;
      }
      pending := keep;
    }

    /** Orders an exit for every open leg. */
    method CloseOpenLegs(id: nat, now: int)
      requires Valid() && id < |positions|
      modifies this
      ensures Valid() && closingFromRule == old(closingFromRule)
      ensures Contents() == CloseLegsUpto(old(Contents()), id, |old(positions)[id].legs|, now, closingFromRule)
    {
      hide SetLeg;
      var i := 0;
      while i < |positions[id].legs|
        invariant id < |positions| && |positions[id].legs| == |old(positions)[id].legs| && Valid()
        invariant 0 <= i <= |positions[id].legs| && closingFromRule == old(closingFromRule)
        invariant Contents() == CloseLegsUpto(old(Contents()), id, i, now, closingFromRule)
      {
        if positions[id].legs[i].state == Open {
          var _ := SubmitCloseLeg(id, i, now);
        }
        i := i + 1;
      }
    }

    method SubmitClose(id: nat, now: int) returns (known: bool)
      requires Valid()
      modifies this
      ensures Valid() && closingFromRule == old(closingFromRule)
      ensures known == (id < |old(positions)|)
      ensures Contents() == if known then Books.SubmitClose(old(Contents()), id, now, closingFromRule) else old(Contents())
    {
      hide WithdrawOpenings, CloseLegsUpto;
      if id >= |positions| { return false; }
      WithdrawOrders(id);
      CloseOpenLegs(id, now);
      return true;
    }

    /** Attaches a rule; refused for an unknown position or a percentage that is not positive. */
    method AttachRule(kind: RuleKind, id: nat, leg: Option<nat>) returns (accepted: bool)
      requires Valid()
      modifies this`rules
      ensures Valid()
      ensures accepted == (id < |positions| && (!kind.ExitAt? ==> kind.threshold > 0.0))
      ensures Contents() == if accepted then Books.AttachRule(old(Contents()), kind, id, leg) else old(Contents())
    {
      if !kind.ExitAt? && kind.threshold <= 0.0 { return false; }
      if id >= |positions| { return false; }
      rules := rules + [Rule(kind, id, leg, false)];
      return true;
    }

    method ProcessPending(m: Market)
      requires Valid()
      modifies this
      ensures Valid() && closingFromRule == old(closingFromRule)
      ensures Contents() == Books.ProcessPending(old(Contents()), pol, m)
    {
      hide SetLeg, Fill;
      var still: seq<Order> := [];
      var k := 0;
      while k < |pending|
        invariant 0 <= k <= |pending| && pending == old(pending) && rules == old(rules) && closingFromRule == old(closingFromRule)
        invariant (Contents(), still) == ProcessUpto(old(Contents()), pol, m, k)
        invariant Addressed(Contents(), still) && SameShape(old(Contents()), Contents())
      {
        var o := pending[k];
        k := k + 1;
        if m.now < o.eligibleAt { still := still + [o]; continue; }
        var q := m.Latest(o.instrument);
        if q.None? { still := still + [o]; continue; }
        var price := pol.fill(q.value, o.side, o.qty);
        if price.None? { still := still + [o]; continue; }

        Execute(m, o, q.value, price.value);
      }
      pending := still;
    }

    /** One order trades at `price` against the quote `q`. */
    method Execute(m: Market, o: Order, q: Quote, price: int)
      requires HasLeg(Contents(), o.position, o.leg)
      requires FillPrice(pol, m, o) == Some(price) && m.Latest(o.instrument) == Some(q)
      modifies this`positions, this`realized, this`costs, this`illiquid, this`oversized, this`trades
      ensures Contents() == Fill(old(Contents()), pol, m, o)
    {
      var ill := IsIlliquid(pol, q);
      if ill { illiquid := illiquid + 1; }
      var over := IsOversized(q, o);
      if over { oversized := oversized + 1; }
      var cost := pol.cost(CostContext(SpecOf(m.registry, o.instrument), price, o.qty, o.side, false, 0));
      costs := costs + cost;

      var leg := positions[o.position].legs[o.leg];
      if o.closing {
        leg := leg.(exit := price, exitTs := m.now, state := Closed);
        realized := realized + (leg.exit * leg.qty - leg.entry * leg.qty);
      } else {
        leg := leg.(entry := price, entryTs := m.now, state := Open);
      }
      PutLeg(o.position, o.leg, leg);
      trades := trades + [Trade(o.submittedAt, m.now, o.position, o.instrument, o.side, o.qty,
                                price, cost, ill, o.fromRule, over, false)];
    }

    method RefreshMarks(m: Market)
      requires Valid()
      modifies this`positions
      ensures Valid() && Contents() == Books.RefreshMarks(old(Contents()), m)
    {
      var p := 0;
      while p < |positions|
        invariant 0 <= p <= |positions| && SameShape(old(Contents()), Contents())
        invariant forall q :: 0 <= q < |positions| ==>
                    positions[q] == if q < p then old(positions)[q].(legs := RemarkedLegs(old(positions)[q].legs, m)) else old(positions)[q]
      {
        var i := 0;
        while i < |positions[p].legs|
          invariant p < |positions| && 0 <= i <= |positions[p].legs| == |old(positions)[p].legs| && |positions| == |old(positions)|
          invariant positions[p] == old(positions)[p].(legs := positions[p].legs)
          invariant forall j :: 0 <= j < |positions[p].legs| ==>
                      positions[p].legs[j] == if j < i then Remarked(old(positions)[p].legs[j], m) else old(positions)[p].legs[j]
          invariant forall q :: 0 <= q < |positions| && q != p ==>
                      positions[q] == if q < p then old(positions)[q].(legs := RemarkedLegs(old(positions)[q].legs, m)) else old(positions)[q]
        {
          var leg := positions[p].legs[i];
          var q := m.Latest(leg.instrument);
          if leg.Live() && q.Some? {
            var side := if leg.qty < 0 then q.value.ask else q.value.bid;
            if side > 0 {
              PutLeg(p, i, leg.(lastMark := side, lastMarkTs := m.now));
            } else if leg.qty > 0 {
              PutLeg(p, i, leg.(lastMark := 0, lastMarkTs := m.now));
            } else if q.value.last > 0 {
              PutLeg(p, i, leg.(lastMark := q.value.last, lastMarkTs := m.now));
            }
          }
          i := i + 1;
        }
        assert positions[p].legs == RemarkedLegs(old(positions)[p].legs, m);
        p := p + 1;
      }
      assert positions == Books.RefreshMarks(old(Contents()), m).positions;
    }

    /** Settles every live leg of the series; returns how many. */
    method SettleExpiry(m: Market, expiry: int, level: real, when: int) returns (settled: nat)
      requires Valid()
      modifies this
      ensures Valid() && closingFromRule == old(closingFromRule)
      ensures Contents() == Books.SettleExpiry(old(Contents()), pol, m, expiry, level, when)
      ensures settled == settledLegs - old(settledLegs)
    {
      hide SettleUpto, SettleLeg, Settles, DropExpired;
      SettleNone(Contents(), pol, m, expiry, level, when);
      settled := 0;
      var p := 0;
      while p < |positions|
        invariant 0 <= p <= |positions| == |old(positions)| && closingFromRule == old(closingFromRule)
        invariant Contents() == SettleUpto(old(Contents()), pol, m, expiry, level, when, p, 0)
        invariant settled == settledLegs - old(settledLegs) && rules == old(rules) && pending == old(pending)
      {
        var i := 0;
        while i < |positions[p].legs|
          invariant p < |positions| == |old(positions)| && 0 <= i <= |positions[p].legs| == |old(positions)[p].legs|
          invariant closingFromRule == old(closingFromRule)
          invariant Contents() == SettleUpto(old(Contents()), pol, m, expiry, level, when, p, i)
          invariant settled == settledLegs - old(settledLegs) && rules == old(rules) && pending == old(pending)
        {
          SettleNext(old(Contents()), pol, m, expiry, level, when, p, i);
          if Settles(positions[p].legs[i], m, expiry) {
            SettleOne(m, expiry, level, when, p, i);
            settled := settled + 1;
          }
          i := i + 1;
        }
        SettleRow(old(Contents()), pol, m, expiry, level, when, p);
        p := p + 1;
      }
      DropOrders(m, expiry);
    }

    method SettleOne(m: Market, ghost expiry: int, level: real, when: int, p: nat, i: nat)
      requires HasLeg(Contents(), p, i) && Settles(LegAt(Contents(), p, i), m, expiry)
      modifies this`positions, this`realized, this`costs, this`trades, this`settledLegs
      ensures Contents() == SettleLeg(old(Contents()), pol, m, expiry, level, when, p, i)
      ensures settledLegs == old(settledLegs) + 1
    {
      var l := positions[p].legs[i];
      var spec := SpecOf(m.registry, l.instrument);
      var value := Intrinsic(spec, level);
      var px := PriceOfReal(value);
      PutLeg(p, i, l.(exit := px, exitTs := when, state := Closed, settled := true));
      realized := realized + (px * l.qty - l.entry * l.qty);
      var cost := 0;
      if l.qty > 0 && value > 0.0 {
        cost := pol.cost(CostContext(spec, px, l.qty, Sell, true, px));
        costs := costs + cost;
      }
      trades := trades + [Trade(when, when, p, l.instrument, l.ClosingSide(), Abs(l.qty), px, cost, false, false, false, true)];
      settledLegs := settledLegs + 1;
    }

    method DropOrders(m: Market, expiry: int)
      requires Valid()
      modifies this`positions, this`pending, this`cancelled
      ensures Valid() && Contents() == DropExpired(old(Contents()), m, expiry)
    {
      hide SetLeg, ExpiresOn, DropUpto;
      NothingDroppedYet(Contents(), m, expiry);
      var keep: seq<Order> := [];
      var k := 0;
      while k < |pending|
        invariant 0 <= k <= |pending| && pending == old(pending)
        invariant (Contents(), keep) == DropUpto(old(Contents()), m, expiry, k)
        invariant Addressed(Contents(), keep)
      {
        var o := pending[k];
        DropNext(old(Contents()), m, expiry, k);
        if ExpiresOn(m, o.instrument, expiry) {
          var leg := positions[o.position].legs[o.leg];
          if !o.closing && leg.state == PendingOpen {
            PutLeg(o.position, o.leg, leg.(state := Cancelled));
          }
          cancelled := cancelled + 1;
        } else {
          keep := keep + [o];
        }
        k := k + 1;
      }
      pending := keep;
    }

    /** Undoes the working orders leg by leg; returns the positions whose exits did not get done. */
    method AbandonOrders() returns (exits: set<nat>)
      requires Valid()
      modifies this`positions
      ensures Valid() && (Contents(), exits) == AbandonUpto(old(Contents()), |old(pending)|)
    {
      hide SetLeg;
      exits := {};
      var k := 0;
      while k < |pending|
        invariant 0 <= k <= |pending|
        invariant (Contents(), exits) == AbandonUpto(old(Contents()), k)
      {
        var o := pending[k];
        var leg := positions[o.position].legs[o.leg];
        if o.closing {
          if leg.state == PendingClose {
            PutLeg(o.position, o.leg, leg.(state := Open));
            exits := exits + {o.position};
          }
        } else if leg.state == PendingOpen {
          PutLeg(o.position, o.leg, leg.(state := Cancelled));
        }
        k := k + 1;
      }
    }

    /** Day orders end with the day; returns how many were working. */
    method CancelWorkingOrders() returns (n: nat)
      requires Valid()
      modifies this
      ensures Valid() && closingFromRule == old(closingFromRule) && n == |old(pending)|
      ensures Contents() == CancelWorking(old(Contents()))
    {
      hide AbandonUpto, RearmRules;
      n := |pending|;
      var exits := AbandonOrders();
      pending := [];
      cancelled := cancelled + n;
      Rearm(exits);
    }

    /** Arms again the spent rules whose exits were abandoned. */
    method Rearm(exits: set<nat>)
      requires RulesAddressed(Contents())
      modifies this`rules
      ensures Contents() == old(Contents()).(rules := RearmRules(old(Contents()), exits))
    {
      var r := 0;
      while r < |rules|
        invariant 0 <= r <= |rules| == |old(rules)|
        invariant forall s :: 0 <= s < |rules| ==> rules[s] == if s < r then Rearmed(old(Contents()), exits, old(rules)[s]) else old(rules)[s]
      {
        var rule := rules[r];
        if rule.fired && rule.position in exits && IsOpen(positions[rule.position].legs) {
          rules := rules[r := rule.(fired := false)];
        }
        r := r + 1;
      }
      assert rules == RearmRules(old(Contents()), exits);
    }

    method ProcessRiskRules(m: Market)
      requires Valid() && !closingFromRule
      modifies this
      ensures Valid() && !closingFromRule
      ensures Contents() == Books.ProcessRiskRules(old(Contents()), m)
    {
      var r := 0;
      while r < |rules|
        invariant 0 <= r <= |rules| == |old(rules)| && Valid() && !closingFromRule
        invariant Contents() == RulesUpto(old(Contents()), m, r)
      {
        JudgeRule(m, r);
        r := r + 1;
      }
    }

    method JudgeRule(m: Market, r: nat)
      requires Valid() && !closingFromRule && r < |rules|
      modifies this
      ensures Valid() && !closingFromRule
      ensures Contents() == RunRule(old(Contents()), m, r)
    {
      hide Triggers, IsOpen, Established, SetLeg;
      var rule := rules[r];
      if rule.fired { return; }
      var legs := positions[rule.position].legs;
      if Moot(legs, rule) {
        rules := rules[r := rule.(fired := true)];
        return;
      }
      if !Armed(legs, rule) || !Triggers(legs, rule, m) { return; }
      rules := rules[r := rule.(fired := true)];
      rulesFired := rulesFired + 1;
      closingFromRule := true;
      if rule.leg.Some? {
        var _ := SubmitCloseLeg(rule.position, rule.leg.value, m.now);
      } else {
        var _ := SubmitClose(rule.position, m.now);
      }
      closingFromRule := false;
    }

    /** Marks every leg that is not closed. */
    method MarkOpenLegs(m: Market) returns (total: int)
      ensures total == Books.Unrealized(Contents(), m)
    {
      total := 0;
      var p := 0;
      while p < |positions|
        invariant 0 <= p <= |positions| && total == BookSum(positions[..p], OpenPnlIn(m))
      {
        var i := 0;
        var legs := positions[p].legs;
        ghost var before := total;
        while i < |legs|
          invariant 0 <= i <= |legs| && total == before + LegSum(legs[..i], OpenPnlIn(m))
        {
          if legs[i].state != Closed {
            total := total + LegPnl(legs[i], m);
          }
          assert legs[..i + 1][..i] == legs[..i];
          i := i + 1;
        }
        assert legs[..i] == legs && positions[..p + 1][..p] == positions[..p];
        p := p + 1;
      }
      assert positions[..p] == positions;
    }

    method EquityNow(m: Market) returns (e: int)
      ensures e == Books.Equity(Contents(), m)
    {
      var u := MarkOpenLegs(m);
      e := realized - costs + u;
    }
  }

  lemma DropNext(b: Book, m: Market, expiry: int, k: nat)
    requires Addressed(b, b.pending) && k < |b.pending|
    ensures var (c, keep) := DropUpto(b, m, expiry, k);
            var o := b.pending[k];
            && HasLeg(c, o.position, o.leg)
            && var l := LegAt(c, o.position, o.leg);
               DropUpto(b, m, expiry, k + 1) ==
                 if !ExpiresOn(m, o.instrument, expiry) then (c, keep + [o])
                 else ((if !o.closing && l.state.PendingOpen? then SetLeg(c, o.position, o.leg, l.(state := Cancelled)) else c)
                       .(cancelled := c.cancelled + 1), keep)
  {
    hide SetLeg, ExpiresOn;
  }

  lemma NothingWithdrawn(b: Book, p: nat)
    requires Addressed(b, b.pending)
    ensures WithdrawUpto(b, p, 0) == (b, [])
  {
  }

  lemma WithdrawNext(b: Book, p: nat, k: nat)
    requires Addressed(b, b.pending) && k < |b.pending|
    ensures var (c, keep) := WithdrawUpto(b, p, k);
            var o := b.pending[k];
            && HasLeg(c, o.position, o.leg)
            && WithdrawUpto(b, p, k + 1) ==
                 if OpensPosition(o, p) then
                   (SetLeg(c, o.position, o.leg, LegAt(c, o.position, o.leg).(state := Cancelled)).(cancelled := c.cancelled + 1), keep)
                 else (c, keep + [o])
  {
    hide SetLeg;
  }

  lemma SettleNone(b: Book, pol: Policy, m: Market, expiry: int, level: real, when: int)
    ensures SettleUpto(b, pol, m, expiry, level, when, 0, 0) == b
  {
  }

  lemma SettleNext(b: Book, pol: Policy, m: Market, expiry: int, level: real, when: int, p: nat, i: nat)
    requires p < |b.positions| && i < |b.positions[p].legs|
    ensures var c := SettleUpto(b, pol, m, expiry, level, when, p, i);
            HasLeg(c, p, i) &&
            SettleUpto(b, pol, m, expiry, level, when, p, i + 1) ==
              if Settles(LegAt(c, p, i), m, expiry) then SettleLeg(c, pol, m, expiry, level, when, p, i) else c
  {
    hide Settles, SetLeg, SettledLeg, SettleCost, SettlePrice;
  }

  lemma SettleRow(b: Book, pol: Policy, m: Market, expiry: int, level: real, when: int, p: nat)
    requires p < |b.positions|
    ensures SettleUpto(b, pol, m, expiry, level, when, p + 1, 0) == SettleUpto(b, pol, m, expiry, level, when, p, |b.positions[p].legs|)
  {
    hide SettleLeg;
  }

  lemma NothingDroppedYet(b: Book, m: Market, expiry: int)
    requires Addressed(b, b.pending)
    ensures DropUpto(b, m, expiry, 0) == (b, [])
  {
  }

  lemma AddressedAfterOpen(b: Book, name: string, instruments: seq<int>, side: Side, qty: int, now: int)
    requires Addressed(b, b.pending) && RulesAddressed(b) && CanOpen(instruments, qty)
    ensures var b' := Books.SubmitOpen(b, name, instruments, side, qty, now);
            Addressed(b', b'.pending) && RulesAddressed(b')
  {
  }
}
