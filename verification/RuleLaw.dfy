/** What marks, profits and risk rules mean in amounts of money, said without the functions that compute
    them. */
module RuleLaw {
  import opened Types
  import opened Books
  import opened Matching
  import opened Ledger
  import opened Soundness
  import opened RiskRules
  import opened Effects
  import opened CarriedMarks
  import opened Fractions

  // ----- marks --------------------------------------------------------------------------------

  /** A mark is the price at which an exit would fill: wherever the default fill model would execute the
      closing order of a leg, it executes at the leg's mark. */
  lemma MarkIsExitPrice(l: Leg, m: Market, pol: Policy)
    requires CrossesSpread(pol) && l.qty != 0 && m.Latest(l.instrument).Some?
    ensures var q := m.Latest(l.instrument).value;
            pol.fill(q, l.ClosingSide(), Abs(l.qty)).Some? ==> pol.fill(q, l.ClosingSide(), Abs(l.qty)) == Some(MarkFor(l, m))
  {
    var q := m.Latest(l.instrument).value;
    assert pol.fill(q, l.ClosingSide(), Abs(l.qty)) == CrossSpread(q, l.ClosingSide(), Abs(l.qty));
  }

  lemma MidBetween(q: Quote)
    requires q.TwoSided() && q.bid <= q.ask
    ensures q.bid <= q.Mid() <= q.ask && 2 * q.Mid() <= q.bid + q.ask < 2 * q.Mid() + 2
  {
  }

  /** The default fill model never trades on better terms than the middle of the market: a buyer pays the
      ask and a seller takes the bid. */
  lemma SpreadIsPaid(q: Quote, side: Side, qty: int)
    ensures CrossSpread(q, side, qty).Some? <==> 0 < q.bid <= q.ask
    ensures CrossSpread(q, side, qty).Some? ==>
              var px := CrossSpread(q, side, qty).value;
              if side == Buy then px == q.ask >= q.Mid() else px == q.bid <= q.Mid()
  {
    if 0 < q.bid <= q.ask { MidBetween(q); }
  }

  lemma SignedOrder(a: int, b: int, qty: int)
    ensures qty > 0 && a <= b ==> a * qty <= b * qty
    ensures qty < 0 && a >= b ==> a * qty <= b * qty
  {
  }

  /** No leg is ever valued above the middle of the market.  Where one side is missing, a long is worth its
      bid or nothing, and a short costs its ask or the last print. */
  lemma MarkIsConservative(l: Leg, m: Market)
    requires m.Latest(l.instrument).Some?
    ensures var q := m.Latest(l.instrument).value;
            && (l.qty != 0 && q.TwoSided() && q.bid <= q.ask ==> MarkFor(l, m) * l.qty <= q.Mid() * l.qty)
            && (l.qty > 0 ==> MarkFor(l, m) == Max(q.bid, 0))
            && (l.qty < 0 && (q.ask > 0 || q.last > 0) ==> MarkFor(l, m) == if q.ask > 0 then q.ask else q.last)
  {
    var q := m.Latest(l.instrument).value;
    if q.TwoSided() && q.bid <= q.ask {
      MidBetween(q);
      SignedOrder(MarkFor(l, m), q.Mid(), l.qty);
    }
  }

  /** A leg whose instrument has not printed, or a short with nothing to be bought back at, stands at the
      mark it carries, and at its entry before it ever had one. */
  lemma MarkIsCarried(l: Leg, m: Market)
    requires l.Filled()
    requires match m.Latest(l.instrument)
             case None => true
             case Some(q) => l.qty < 0 && q.ask <= 0 && q.last <= 0
    ensures MarkFor(l, m) == if l.lastMarkTs != 0 && l.lastMark >= 0 then l.lastMark else l.entry
  {
  }

  /** Refreshing records the closing price of every live leg, and only that. */
  lemma RefreshRecordsMark(l: Leg, m: Market)
    requires m.now != 0
    ensures var l' := Remarked(l, m);
            && l' == l.(lastMark := l'.lastMark, lastMarkTs := l'.lastMarkTs)
            && (!l.Live() || m.Latest(l.instrument).None? ==> l' == l)
            && MarkFor(l', m) == MarkFor(l, m)
            && (l.Live() && m.Latest(l.instrument).Some? && l.qty > 0 ==> l'.lastMark == MarkFor(l, m) && l'.lastMarkTs == m.now)
            && (l.Live() && m.Latest(l.instrument).Some? && l.qty < 0 ==>
                  var q := m.Latest(l.instrument).value;
                  if q.ask > 0 || q.last > 0 then l'.lastMark == MarkFor(l, m) && l'.lastMarkTs == m.now else l' == l)
  {
  }

  // ----- profits ------------------------------------------------------------------------------

  /** What one unit of a filled leg left, or would leave, the position at: the exit of a closed leg, the
      mark of a live one, and its entry if there is no valuation at all. */
  function ClosingPrice(l: Leg, m: Market): int {
    if l.state.Closed? then l.exit else if MarkFor(l, m) < 0 then l.entry else MarkFor(l, m)
  }

  function Gain(m: Market): Leg -> int {
    (l: Leg) => if l.Filled() then (ClosingPrice(l, m) - l.entry) * l.qty else 0
  }

  function Stake(l: Leg): int { if l.Filled() then l.entry * l.qty else 0 }

  lemma GainIsPnl(l: Leg, m: Market)
    ensures LegPnl(l, m) == Gain(m)(l) && EntryValue(l) == Stake(l)
  {
    var c := ClosingPrice(l, m);
    assert (c - l.entry) * l.qty == c * l.qty - l.entry * l.qty;
  }

  lemma GainsArePnl(legs: seq<Leg>, m: Market)
    ensures PositionPnl(legs, m) == LegSum(legs, Gain(m)) && EntryNotional(legs) == LegSum(legs, Stake)
  {
    forall i | 0 <= i < |legs| ensures PnlIn(m)(legs[i]) == Gain(m)(legs[i]) && EntryValue(legs[i]) == Stake(legs[i]) {
      GainIsPnl(legs[i], m);
    }
    LegSumAgree(legs, legs, PnlIn(m), Gain(m));
    LegSumAgree(legs, legs, EntryValue, Stake);
  }

  /** A position's profit is the cash logged under it plus what is still held at its marks; so once every
      leg is done it is exactly the cash logged. */
  lemma ProfitIsCash(b: Book, p: nat, m: Market)
    requires Balanced(b) && EntriesNonNegative(b) && p < |b.positions|
    ensures PositionPnl(b.positions[p].legs, m)
         == TradeSum(b.trades, PositionCash(p)) + LegSum(b.positions[p].legs, MarkedValue(m))
    ensures (forall i :: HasLeg(b, p, i) ==> !LegAt(b, p, i).Live())
              ==> PositionPnl(b.positions[p].legs, m) == TradeSum(b.trades, PositionCash(p))
  {
    var legs := b.positions[p].legs;
    forall i | 0 <= i < |legs| ensures PnlIn(m)(legs[i]) == MarkedValue(m)(legs[i]) - Spent(legs[i]) {
      assert HasLeg(b, p, i) && LegAt(b, p, i) == legs[i];
      assert legs[i].Live() ==> MarkFor(legs[i], m) >= 0;
    }
    LegSumDifference(legs, PnlIn(m), MarkedValue(m), Spent);
    LegSumNegated(legs);
    assert TradeSum(b.trades, PositionCash(p)) == CashIn(b, p);
    if forall i :: HasLeg(b, p, i) ==> !LegAt(b, p, i).Live() {
      forall i | 0 <= i < |legs| ensures MarkedValue(m)(legs[i]) == 0 { assert HasLeg(b, p, i); }
      LegSumZero(legs, MarkedValue(m));
    }
  }

  function Spent(l: Leg): int { -LegCash(l) }

  lemma {:induction false} LegSumNegated(legs: seq<Leg>)
    ensures LegSum(legs, Spent) == -LegSum(legs, LegCash)
  {
    if legs != [] {
      LegSumNegated(legs[..|legs| - 1]);
    }
  }

  // ----- rules --------------------------------------------------------------------------------

  /** A stop is reached by losing at least its fraction of the stake, a take-profit by gaining at least its
      fraction, a deadline by the clock.  Nothing is a fraction of no stake. */
  predicate Reached(kind: RuleKind, gain: int, stake: int, now: int) {
    match kind
    case StopLoss(t) => stake != 0 && gain as real <= -Part(t, stake)
    case TakeProfit(t) => stake != 0 && gain as real >= Part(t, stake)
    case ExitAt(deadline) => now >= deadline
  }

  function Part(t: real, stake: int): real { Times(t, Abs(stake) as real) }

  /** What the rule guards is held, fully in place, and has reached the rule's limit. */
  predicate Owed(legs: seq<Leg>, rule: Rule, m: Market) {
    match rule.leg
    case Some(i) =>
      i < |legs| && legs[i].state.Open? && Reached(rule.kind, Gain(m)(legs[i]), Stake(legs[i]), m.now)
    case None =>
      && (forall i :: 0 <= i < |legs| ==> !legs[i].state.PendingOpen?) && (exists i :: 0 <= i < |legs| && legs[i].Live())
      && Reached(rule.kind, LegSum(legs, Gain(m)), LegSum(legs, Stake), m.now)
  }

  /** The rule has nothing left to guard: no leg is held or on order, or it names a leg there is not. */
  predicate Pointless(legs: seq<Leg>, rule: Rule) {
    || (forall i :: 0 <= i < |legs| ==> legs[i].state.Closed? || legs[i].state.Cancelled?)
    || (rule.leg.Some? && rule.leg.value >= |legs|)
  }

  /** Rules as the portfolio accepts them: percentages are positive. */
  predicate Positive(kind: RuleKind) { kind.ExitAt? || kind.threshold > 0.0 }

  function Ratio(gain: int, stake: int): real
    requires stake != 0
  {
    gain as real / Abs(stake) as real
  }

  lemma Fraction(gain: int, stake: int, t: real)
    requires stake != 0
    ensures Ratio(gain, stake) <= -t <==> gain as real <= -Part(t, stake)
    ensures Ratio(gain, stake) >= t <==> gain as real >= Part(t, stake)
  {
    hide Times;
    var whole := Abs(stake) as real;
    CompareParts(gain as real, whole, -t);
    CompareParts(gain as real, whole, t);
    Negated(t, whole);
  }

  lemma ReachedIsTriggered(legs: seq<Leg>, rule: Rule, m: Market, gain: int, stake: int)
    requires MeasuredPnl(legs, rule, m) == if stake == 0 then 0.0 else Ratio(gain, stake)
    ensures Reached(rule.kind, gain, stake, m.now) ==> Triggers(legs, rule, m)
    ensures Positive(rule.kind) && Triggers(legs, rule, m) ==> Reached(rule.kind, gain, stake, m.now)
  {
    hide MeasuredPnl, Ratio, Part;
    if stake != 0 && !rule.kind.ExitAt? {
      Fraction(gain, stake, rule.kind.threshold);
    }
  }

  lemma PointlessIsMoot(legs: seq<Leg>, rule: Rule)
    ensures Pointless(legs, rule) <==> Moot(legs, rule)
  {
    if i :| 0 <= i < |legs| && !(legs[i].state.Closed? || legs[i].state.Cancelled?) {
      assert legs[i].Live() || legs[i].state.PendingOpen?;
    }
  }

  /** The engine's judgement of a rule, in amounts. */
  lemma OwedIsDue(legs: seq<Leg>, rule: Rule, m: Market)
    ensures Owed(legs, rule, m) ==> Armed(legs, rule) && Triggers(legs, rule, m) && !Pointless(legs, rule)
    ensures Positive(rule.kind) && !Pointless(legs, rule) && Armed(legs, rule) && Triggers(legs, rule, m) ==> Owed(legs, rule, m)
  {
    match rule.leg
    case Some(i) =>
      if i < |legs| && legs[i].state.Open? {
        GainIsPnl(legs[i], m);
        ReachedIsTriggered(legs, rule, m, Gain(m)(legs[i]), Stake(legs[i]));
      }
    case None =>
      GainsArePnl(legs, m);
      if !Pointless(legs, rule) {
        EstablishedInPlace(legs);
        if Established(legs) {
          ReachedIsTriggered(legs, rule, m, LegSum(legs, Gain(m)), LegSum(legs, Stake));
        }
      }
  }

  lemma EstablishedInPlace(legs: seq<Leg>)
    requires !(forall i :: 0 <= i < |legs| ==> legs[i].state.Closed? || legs[i].state.Cancelled?)
    ensures Established(legs) <==>
              (forall i :: 0 <= i < |legs| ==> !legs[i].state.PendingOpen?) && (exists i :: 0 <= i < |legs| && legs[i].Live())
  {
    var j :| 0 <= j < |legs| && !(legs[j].state.Closed? || legs[j].state.Cancelled?);
    if Established(legs) { assert legs[j].Live(); }
    if i :| 0 <= i < |legs| && legs[i].Live() { assert legs[i].Filled(); }
  }

  /** The firing law.  A pass spends an unspent rule exactly when what it guards has reached its limit, or
      there is nothing left to guard; of a single leg's rules, only the first to fire finds the leg open. */
  lemma FiringLaw(b: Book, m: Market, r: nat)
    requires Sound(b) && r < |b.rules| && !b.rules[r].fired && Positive(b.rules[r].kind)
    ensures var legs, after := b.positions[b.rules[r].position].legs, ProcessRiskRules(b, m);
            && r < |after.rules| && b.rules[r].position < |after.positions|
            && (after.rules[r].fired ==> Owed(legs, b.rules[r], m) || Pointless(legs, b.rules[r]))
            && (Owed(legs, b.rules[r], m) || Pointless(legs, b.rules[r]) ==>
                  || after.rules[r].fired
                  || (b.rules[r].leg.Some? && b.rules[r].leg.value < |after.positions[b.rules[r].position].legs|
                      && after.positions[b.rules[r].position].legs[b.rules[r].leg.value].state.PendingClose?))
  {
    NoTriggerMissed(b, m);
    var after := ProcessRiskRules(b, m);
    var p := b.rules[r].position;
    var legs, legs' := b.positions[p].legs, after.positions[p].legs;
    assert ExitSteps(legs, legs') && SameRule(b.rules[r], after.rules[r]);
    OwedIsDue(legs, b.rules[r], m);
    PointlessIsMoot(legs, b.rules[r]);
    ExitKeepsJudgement(legs, legs', after.rules[r], m);
    SameJudgement(legs, legs', b.rules[r], after.rules[r], m);
  }

  lemma SameJudgement(legs: seq<Leg>, legs': seq<Leg>, rule: Rule, rule': Rule, m: Market)
    requires SameRule(rule, rule')
    ensures Due(legs, rule', m) == Due(legs, rule, m) && Due(legs', rule', m) == Due(legs', rule, m)
    ensures Triggers(legs, rule', m) == Triggers(legs, rule, m) && Moot(legs, rule') == Moot(legs, rule)
    ensures Armed(legs, rule') == Armed(legs, rule)
  {
  }

  /** So for a rule on a whole position it is an equivalence. */
  lemma PositionFiringLaw(b: Book, m: Market, r: nat)
    requires Sound(b) && r < |b.rules| && !b.rules[r].fired && Positive(b.rules[r].kind) && b.rules[r].leg.None?
    ensures var legs := b.positions[b.rules[r].position].legs;
            r < |ProcessRiskRules(b, m).rules|
            && (ProcessRiskRules(b, m).rules[r].fired <==> Owed(legs, b.rules[r], m) || Pointless(legs, b.rules[r]))
  {
    hide Sound, ProcessRiskRules, Owed, Pointless, Positive;
    FiringLaw(b, m, r);
  }

  /** A rule that fires leaves nothing it guards open: every such leg has its exit ordered or is done. */
  lemma FiredMeansExiting(b: Book, r: nat, i: int)
    requires Sound(b) && r < |b.rules| && b.rules[r].fired && HasLeg(b, b.rules[r].position, i)
    requires b.rules[r].leg.None? || b.rules[r].leg == Some(i)
    ensures var l := LegAt(b, b.rules[r].position, i); l.state.PendingClose? || l.state.Closed? || l.state.Cancelled?
  {
    assert Idle(b.positions[b.rules[r].position].legs, b.rules[r].leg);
  }

  // ----- how many fired -----------------------------------------------------------------------

  /** Of the first `k` rules, how many `c` has spent that `b` had not, with something left to guard. */
  ghost function FiredAmong(b: Book, c: Book, k: nat): nat
    requires k <= |b.rules| == |c.rules| && RulesAddressed(b)
  {
    if k == 0 then 0
    else
      FiredAmong(b, c, k - 1)
      + if c.rules[k - 1].fired && !b.rules[k - 1].fired && !Pointless(b.positions[b.rules[k - 1].position].legs, b.rules[k - 1]) then 1 else 0
  }

  lemma {:induction false} FiredAmongSame(b: Book, c: Book, d: Book, k: nat)
    requires k <= |b.rules| == |c.rules| == |d.rules| && RulesAddressed(b) && forall r :: 0 <= r < k ==> c.rules[r] == d.rules[r]
    ensures FiredAmong(b, c, k) == FiredAmong(b, d, k)
  {
    hide Pointless;
    if k > 0 {
      FiredAmongSame(b, c, d, k - 1);
    }
  }

  lemma RunRuleCounts(c: Book, m: Market, r: nat)
    requires Sound(c) && RulesAddressed(c) && Addressed(c, c.pending) && r < |c.rules|
    ensures var c' := RunRule(c, m, r);
            && |c'.rules| == |c.rules| && (forall q :: 0 <= q < |c.rules| && q != r ==> c'.rules[q] == c.rules[q])
            && c'.rulesFired == c.rulesFired + if c'.rules[r].fired && !c.rules[r].fired && !Moot(c.positions[c.rules[r].position].legs, c.rules[r])
                                               then 1 else 0
  {
    RunRuleOnlyExits(c, m, r);
    FiresOnce(c, m, r);
  }

  lemma FiresOnce(c: Book, m: Market, r: nat)
    requires RulesAddressed(c) && Addressed(c, c.pending) && r < |c.rules|
    ensures FireRule(c, m, r).rulesFired == c.rulesFired + 1
  {
    var d := Spend(c, r).(rulesFired := c.rulesFired + 1);
    match c.rules[r].leg
    case Some(i) =>
    case None =>
      CloseKeepsCount(d, c.rules[r].position, m.now);
  }

  lemma CloseKeepsCount(b: Book, p: nat, now: int)
    requires p < |b.positions| && Addressed(b, b.pending)
    ensures SubmitClose(b, p, now, true).rulesFired == b.rulesFired
  {
    WithdrawKeepsCount(b, p, |b.pending|);
    CloseLegsKeepCount(WithdrawOpenings(b, p), p, |b.positions[p].legs|, now);
  }

  lemma {:induction false} WithdrawKeepsCount(b: Book, p: nat, k: nat)
    requires k <= |b.pending| && Addressed(b, b.pending)
    ensures WithdrawUpto(b, p, k).0.rulesFired == b.rulesFired
  {
    if k > 0 {
      WithdrawKeepsCount(b, p, k - 1);
    }
  }

  lemma {:induction false} CloseLegsKeepCount(b: Book, p: nat, i: nat, now: int)
    requires p < |b.positions| && i <= |b.positions[p].legs|
    ensures CloseLegsUpto(b, p, i, now, true).rulesFired == b.rulesFired
  {
    if i > 0 {
      CloseLegsKeepCount(b, p, i - 1, now);
    }
  }

  /** Running a rule counts it when it is spent with something left to guard as the pass began. */
  lemma RunRuleCountsOne(b: Book, c: Book, m: Market, r: nat)
    requires Sound(c) && RulesAddressed(c) && Addressed(c, c.pending) && r < |c.rules|
    requires RulesAddressed(b) && r < |b.rules| && c.rules[r] == b.rules[r] && b.rules[r].position < |c.positions|
    requires ExitSteps(b.positions[b.rules[r].position].legs, c.positions[b.rules[r].position].legs)
    ensures var c', rule := RunRule(c, m, r), b.rules[r];
            && |c'.rules| == |c.rules| && (forall q :: 0 <= q < |c.rules| && q != r ==> c'.rules[q] == c.rules[q])
            && c'.rulesFired == c.rulesFired + if c'.rules[r].fired && !rule.fired && !Pointless(b.positions[rule.position].legs, rule)
                                               then 1 else 0
  {
    hide Sound, RunRule, Pointless, Moot, ExitSteps, Triggers, Armed;
    RunRuleCounts(c, m, r);
    var p := b.rules[r].position;
    ExitKeepsJudgement(b.positions[p].legs, c.positions[p].legs, b.rules[r], m);
    PointlessIsMoot(b.positions[p].legs, b.rules[r]);
  }

  lemma {:induction false} PassCounts(b: Book, m: Market, k: nat)
    requires Sound(b) && RulesAddressed(b) && Addressed(b, b.pending) && k <= |b.rules|
    ensures RulesUpto(b, m, k).rulesFired == b.rulesFired + FiredAmong(b, RulesUpto(b, m, k), k)
  {
    hide Sound, RunRule, Pointless, ExitSteps;
    if k > 0 {
      PassCounts(b, m, k - 1);
      RulesUptoSound(b, m, k - 1);
      RulesUptoJudged(b, m, k - 1);
      var c, c' := RulesUpto(b, m, k - 1), RulesUpto(b, m, k);
      RunRuleCountsOne(b, c, m, k - 1);
      FiredAmongSame(b, c, c', k - 1);
    }
  }

  /** A pass counts as fired exactly the rules it spent that had something left to guard. */
  lemma FiredCountLaw(b: Book, m: Market)
    requires Sound(b) && RulesAddressed(b) && Addressed(b, b.pending)
    ensures ProcessRiskRules(b, m).rulesFired == b.rulesFired + FiredAmong(b, ProcessRiskRules(b, m), |b.rules|)
  {
    hide Sound, RulesUpto, Pointless;
    PassCounts(b, m, |b.rules|);
  }

  // ----- what a pass touches ------------------------------------------------------------------

  predicate Guards(rule: Rule, p: nat, i: nat) {
    rule.position == p && (rule.leg.None? || rule.leg == Some(i))
  }

  /** A rule that fires touches nothing but the legs it guards. */
  lemma FireTouchesGuarded(c: Book, m: Market, r: nat, p: nat, i: nat)
    requires Sound(c) && RulesAddressed(c) && Addressed(c, c.pending) && r < |c.rules|
    requires HasLeg(c, p, i) && !Guards(c.rules[r], p, i)
    ensures LegAt(FireRule(c, m, r), p, i) == LegAt(c, p, i)
  {
    hide OrderMatches, Balanced, Sane;
    var d := Spend(c, r).(rulesFired := c.rulesFired + 1);
    assert HasLeg(d, p, i) && LegAt(d, p, i) == LegAt(c, p, i);
    if c.rules[r].leg.None? {
      assert Matched(d) by { SpendMatched(c, r); }
      SubmitCloseEffect(d, c.rules[r].position, m.now, true);
    }
  }

  lemma SpendMatched(c: Book, r: nat)
    requires Matched(c) && r < |c.rules|
    ensures Matched(Spend(c, r).(rulesFired := c.rulesFired + 1))
  {
    var d := Spend(c, r).(rulesFired := c.rulesFired + 1);
    assert forall q, j :: HasLeg(d, q, j) <==> HasLeg(c, q, j);
    assert forall q, j :: HasLeg(c, q, j) ==> LegAt(d, q, j) == LegAt(c, q, j);
  }

  /** One of the first `k` rules guards the leg, and was spent between `b` and `c`. */
  ghost predicate Guarded(b: Book, c: Book, k: nat, p: nat, i: nat) {
    exists r :: 0 <= r < k <= |b.rules| && r < |c.rules| && Guards(b.rules[r], p, i) && !b.rules[r].fired && c.rules[r].fired
  }

  lemma GuardedMore(b: Book, c: Book, c': Book, k: nat, p: nat, i: nat)
    requires 0 < k <= |b.rules| == |c.rules| == |c'.rules| && forall r :: 0 <= r < k - 1 ==> c'.rules[r] == c.rules[r]
    ensures Guarded(b, c, k - 1, p, i) ==> Guarded(b, c', k, p, i)
    ensures Guards(b.rules[k - 1], p, i) && !b.rules[k - 1].fired && c'.rules[k - 1].fired ==> Guarded(b, c', k, p, i)
  {
    hide Guards;
    if Guarded(b, c, k - 1, p, i) {
      var r :| 0 <= r < k - 1 && Guards(b.rules[r], p, i) && !b.rules[r].fired && c.rules[r].fired;
      assert c'.rules[r].fired;
    }
  }

  /** A leg that a pass over the rules changed is guarded by a rule which that pass spent. */
  lemma {:induction false} PassTouchesGuarded(b: Book, m: Market, k: nat, p: nat, i: nat)
    requires Sound(b) && RulesAddressed(b) && Addressed(b, b.pending) && k <= |b.rules| && HasLeg(b, p, i)
    ensures var c := RulesUpto(b, m, k); LegAt(c, p, i) != LegAt(b, p, i) ==> Guarded(b, c, k, p, i)
  {
    hide Sound, RunRule, Guards, Guarded, ExitSteps, Due;
    if k > 0 {
      PassTouchesGuarded(b, m, k - 1, p, i);
      RulesUptoSound(b, m, k - 1);
      RulesUptoJudged(b, m, k - 1);
      var c, c' := RulesUpto(b, m, k - 1), RulesUpto(b, m, k);
      RunTouchesGuarded(c, m, k - 1, p, i);
      GuardedMore(b, c, c', k, p, i);
      assert c.rules[k - 1] == b.rules[k - 1];
    }
  }

  lemma RunTouchesGuarded(c: Book, m: Market, r: nat, p: nat, i: nat)
    requires Sound(c) && RulesAddressed(c) && Addressed(c, c.pending) && r < |c.rules| && HasLeg(c, p, i)
    ensures var c' := RunRule(c, m, r);
            && |c'.rules| == |c.rules| && (forall q :: 0 <= q < |c.rules| && q != r ==> c'.rules[q] == c.rules[q])
            && (LegAt(c', p, i) != LegAt(c, p, i) ==> Guards(c.rules[r], p, i) && !c.rules[r].fired && c'.rules[r].fired)
  {
    hide Sound, Guards, FireRule, Armed, Triggers, Moot;
    RunRuleOnlyExits(c, m, r);
    if !Guards(c.rules[r], p, i) {
      FireTouchesGuarded(c, m, r, p, i);
    }
  }
}
