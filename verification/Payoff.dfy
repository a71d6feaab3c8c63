/** What an option pays when it settles, said from the contract and the settlement level. */
module Payoff {
  import opened Types
  import opened Books
  import opened Matching
  import opened Ledger
  import opened Soundness
  import opened EndOfDay
  import opened Effects

  /** `level` is in currency units, strikes and prices in minor units. */
  function InMinor(level: real): real { 100.0 * level }

  predicate InTheMoney(spec: InstrumentSpec, level: real) {
    if spec.right.Call? then InMinor(level) > spec.strike as real else InMinor(level) < spec.strike as real
  }

  /** How far the level stands from the strike. */
  function Distance(spec: InstrumentSpec, level: real): real {
    if spec.right.Call? then InMinor(level) - spec.strike as real else spec.strike as real - InMinor(level)
  }

  /** `price` is `x` rounded to the nearest whole number, halves upwards. */
  predicate Rounded(price: int, x: real) {
    price as real - 0.5 <= x < price as real + 0.5
  }

  /** The payoff: nothing out of the money, else the distance to the strike, rounded. */
  predicate Pays(price: int, spec: InstrumentSpec, level: real) {
    if InTheMoney(spec, level) then Rounded(price, Distance(spec, level)) else price == 0
  }

  lemma RoundsDown(v: real)
    requires v >= 0.0
    ensures Rounded(PriceOfReal(v), v * 100.0)
  {
  }

  lemma PricePays(m: Market, instrument: int, level: real)
    ensures Pays(SettlePrice(m, instrument, level), SpecOf(m.registry, instrument), level)
  {
    var spec := SpecOf(m.registry, instrument);
    var v := Intrinsic(spec, level);
    RoundsDown(v);
    assert spec.strike as real / 100.0 * 100.0 == spec.strike as real;
    assert InTheMoney(spec, level) ==> v * 100.0 == Distance(spec, level);
    assert !InTheMoney(spec, level) ==> v == 0.0;
  }

  /** A charge is levied only where a held option is exercised: long, and in the money. */
  lemma ChargeLaw(pol: Policy, m: Market, l: Leg, level: real)
    ensures var spec, px := SpecOf(m.registry, l.instrument), SettlePrice(m, l.instrument, level);
            SettleCost(pol, m, l, level) ==
              if l.qty > 0 && InTheMoney(spec, level) then pol.cost(CostContext(spec, px, l.qty, Sell, true, px)) else 0
  {
    var spec := SpecOf(m.registry, l.instrument);
    assert spec.strike as real / 100.0 * 100.0 == spec.strike as real;
  }

  predicate Expiring(l: Leg, m: Market, expiry: int) {
    var spec := SpecOf(m.registry, l.instrument);
    (l.state.Open? || l.state.PendingClose?) && spec.kind.OptionKind? && spec.expiry == expiry
  }

  /** The record of one leg's settlement. */
  predicate SettledAs(t: Trade, l: Leg, p: nat, pol: Policy, m: Market, level: real, when: int) {
    var spec := SpecOf(m.registry, l.instrument);
    && t.settled && t.position == p && t.instrument == l.instrument && t.signalTs == t.fillTs == when
    && t.qty == Abs(l.qty) && t.side == (if l.qty < 0 then Buy else Sell)
    && Pays(t.price, spec, level)
    && t.cost == if l.qty > 0 && InTheMoney(spec, level) then pol.cost(CostContext(spec, t.price, l.qty, Sell, true, t.price)) else 0
  }

  lemma {:induction false} SettlementLogged(b: Book, pol: Policy, m: Market, expiry: int, level: real, when: int, p: nat, i: nat, q: nat, j: nat)
    requires p <= |b.positions| && (if p < |b.positions| then i <= |b.positions[p].legs| else i == 0)
    requires HasLeg(b, q, j) && (q < p || (q == p && j < i)) && Settles(LegAt(b, q, j), m, expiry)
    ensures SettlementOf(LegAt(b, q, j), q, pol, m, level, when) in Settlements(b, pol, m, expiry, level, when, p, i)
    decreases p, i
  {
    hide SettlementOf, Settles;
    if i > 0 {
      if q != p || j != i - 1 {
        SettlementLogged(b, pol, m, expiry, level, when, p, i - 1, q, j);
      }
    } else {
      SettlementLogged(b, pol, m, expiry, level, when, p - 1, |b.positions[p - 1].legs|, q, j);
    }
  }

  lemma RecordPays(l: Leg, p: nat, pol: Policy, m: Market, level: real, when: int)
    ensures SettledAs(SettlementOf(l, p, pol, m, level, when), l, p, pol, m, level, when)
  {
    hide SettlePrice, SettleCost, Pays, InTheMoney;
    PricePays(m, l.instrument, level);
    ChargeLaw(pol, m, l, level);
  }

  /** Settling a series closes every live leg of it at its payoff and logs that, and touches no other
      filled leg. */
  lemma SettlementPays(b: Book, pol: Policy, m: Market, expiry: int, level: real, when: int, p: nat, i: nat)
    requires Sound(b) && RulesAddressed(b) && Addressed(b, b.pending) && HasLeg(b, p, i) && LegAt(b, p, i).Filled()
    ensures var l, b' := LegAt(b, p, i), SettleExpiry(b, pol, m, expiry, level, when);
            && HasLeg(b', p, i)
            && var l' := LegAt(b', p, i);
               if Expiring(l, m, expiry) then
                 && l' == l.(state := Closed, exit := l'.exit, exitTs := when, settled := true)
                 && Pays(l'.exit, SpecOf(m.registry, l.instrument), level)
                 && exists k :: |b.trades| <= k < |b'.trades| && SettledAs(b'.trades[k], l, p, pol, m, level, when) && b'.trades[k].price == l'.exit
               else l' == l
  {
    hide SettleExpiry, MatchedBut, Balanced, SpentRules, Timely, Sane, SettlePrice, SettleCost, Pays, InTheMoney, Settlements;
    SoundMatches(b);
    SettleExpiryEffect(b, pol, m, expiry, level, when);
    var l, b' := LegAt(b, p, i), SettleExpiry(b, pol, m, expiry, level, when);
    PricePays(m, l.instrument, level);
    if Expiring(l, m, expiry) {
      SettlementLogged(b, pol, m, expiry, level, when, |b.positions|, 0, p, i);
      RecordPays(l, p, pol, m, level, when);
      var all := Settlements(b, pol, m, expiry, level, when, |b.positions|, 0);
      var k :| 0 <= k < |all| && all[k] == SettlementOf(l, p, pol, m, level, when);
      assert b'.trades[|b.trades| + k] == all[k];
    }
  }

  lemma SoundMatches(b: Book)
    requires Sound(b)
    ensures Matched(b)
  {
  }

  /** Of one strike, the call less the put is the level less the strike, up to the rounding of one price. */
  lemma CallLessPut(call: InstrumentSpec, put: InstrumentSpec, level: real, c: int, p: int)
    requires call.right.Call? && put.right.Put? && call.strike == put.strike
    requires Pays(c, call, level) && Pays(p, put, level)
    ensures c >= 0 && p >= 0 && (c == 0 || p == 0)
    ensures Rounded(c - p, InMinor(level) - call.strike as real)
         || (p > 0 && Rounded(p - c, call.strike as real - InMinor(level)))
  {
  }
}
