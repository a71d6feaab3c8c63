/** Attached risk rules: what firing does, and why a spent rule never leaves its position exposed. */
module RiskRules {
  import opened Types
  import opened Books
  import opened Matching
  import opened Ledger
  import opened Soundness
  import opened EndOfDay
  import opened Effects

  lemma SpentRulesExtended(b: Book, b': Book, r: nat)
    requires SpentRules(b) && LegsStep(b, b', false) && r < |b.rules|
    requires b'.rules == b.rules[r := b.rules[r].(fired := true)]
    requires Idle(b'.positions[b.rules[r].position].legs, b.rules[r].leg)
    ensures SpentRules(b')
  {
    forall s | 0 <= s < |b'.rules| && b'.rules[s].fired
      ensures Idle(b'.positions[b'.rules[s].position].legs, b'.rules[s].leg)
    {
      if s != r {
        var p := b.rules[s].position;
        forall i | 0 <= i < |b'.positions[p].legs| && !Exposed(b.positions[p].legs[i])
          ensures !Exposed(b'.positions[p].legs[i])
        {
          assert HasLeg(b, p, i) && LegStep(LegAt(b, p, i), LegAt(b', p, i), false);
        }
      }
    }
  }

  lemma SpendConsistent(b: Book, r: nat, fired: nat)
    requires Consistent(b, {}) && r < |b.rules|
    ensures Consistent(Spend(b, r).(rulesFired := fired), {}) && Evolves(b, Spend(b, r).(rulesFired := fired), false)
  {
    OtherRules(b, Spend(b, r).rules);
  }

  /** The exits a rule orders, seen from the book in which the rule is already marked spent. */
  lemma FiredExits(b: Book, c: Book, m: Market, r: nat)
    requires Consistent(c, {}) && r < |b.rules| && RulesAddressed(b) && Addressed(b, b.pending)
    requires c == Spend(b, r).(rulesFired := b.rulesFired + 1)
    requires Armed(b.positions[b.rules[r].position].legs, b.rules[r])
    ensures var b' := FireRule(b, m, r);
            && Consistent(b', {}) && Evolves(c, b', false) && b'.rules == c.rules
            && Idle(b'.positions[b.rules[r].position].legs, b.rules[r].leg)
  {
    hide Consistent, Evolves;
    var p := b.rules[r].position;
    match b.rules[r].leg
    case Some(i) =>
      assert HasLeg(b, p, i) && LegAt(c, p, i).state.Open?;
      CloseLegConsistent(c, p, i, m.now, true);
      assert LegAt(FireRule(b, m, r), p, i) == FireRule(b, m, r).positions[p].legs[i];
    case None =>
      SubmitCloseConsistent(c, p, m.now, true);
  }

  /** Firing leaves the rule spent and what it guards neither open nor waiting to open. */
  lemma FireRuleSound(b: Book, m: Market, r: nat)
    requires Sound(b) && r < |b.rules| && Armed(b.positions[b.rules[r].position].legs, b.rules[r])
    ensures var b' := FireRule(b, m, r);
            Sound(b') && Evolves(b, b', false) && b'.rules == b.rules[r := b.rules[r].(fired := true)]
  {
    SpendConsistent(b, r, b.rulesFired + 1);
    var c := Spend(b, r).(rulesFired := b.rulesFired + 1);
    assert RulesAddressed(b) && Addressed(b, b.pending);
    hide Consistent;
    FiredExits(b, c, m, r);
    EvolvesTransitive(b, c, FireRule(b, m, r), false);
    SpentRulesExtended(b, FireRule(b, m, r), r);
  }

  lemma RunRuleSound(b: Book, m: Market, r: nat)
    requires Sound(b) && r < |b.rules|
    ensures var b' := RunRule(b, m, r); Sound(b') && Evolves(b, b', false)
  {
    var rule := b.rules[r];
    var legs := b.positions[rule.position].legs;
    EvolvesReflexive(b, false);
    if !rule.fired && Moot(legs, rule) {
      SpendConsistent(b, r, b.rulesFired);
      assert Spend(b, r) == Spend(b, r).(rulesFired := b.rulesFired);
      hide Consistent;
      SpentRulesExtended(b, Spend(b, r), r);
    } else if !rule.fired && Armed(legs, rule) && Triggers(legs, rule, m) {
      FireRuleSound(b, m, r);
    }
  }

  lemma {:induction false} RulesUptoSound(b: Book, m: Market, r: nat)
    requires RulesAddressed(b) && Addressed(b, b.pending) && Sound(b) && r <= |b.rules|
    ensures var c := RulesUpto(b, m, r); Sound(c) && Evolves(b, c, false)
  {
    hide Sound, RunRule;
    EvolvesReflexive(b, false);
    if r > 0 {
      RulesUptoSound(b, m, r - 1);
      var c := RulesUpto(b, m, r - 1);
      RunRuleSound(c, m, r - 1);
      EvolvesTransitive(b, c, RulesUpto(b, m, r), false);
    }
  }

  lemma ProcessRiskRulesSound(b: Book, m: Market)
    requires Sound(b)
    ensures var b' := ProcessRiskRules(b, m); Sound(b') && Evolves(b, b', false)
  {
    RulesUptoSound(b, m, |b.rules|);
  }

  // ----- no trigger is missed -----------------------------------------------------------------

  /** The only thing a rule pass does to a leg is to start its exit. */
  predicate ExitStep(l: Leg, l': Leg) {
    l' == l || (l.state.Open? && l' == l.(state := PendingClose))
  }

  predicate ExitSteps(legs: seq<Leg>, legs': seq<Leg>) {
    |legs'| == |legs| && forall i :: 0 <= i < |legs| ==> ExitStep(legs[i], legs'[i])
  }

  ghost predicate OnlyExits(b: Book, c: Book) {
    |c.positions| == |b.positions| && forall p :: 0 <= p < |b.positions| ==> ExitSteps(b.positions[p].legs, c.positions[p].legs)
  }

  lemma SumsKept(legs: seq<Leg>, legs': seq<Leg>, m: Market)
    requires ExitSteps(legs, legs')
    ensures EntryNotional(legs') == EntryNotional(legs) && PositionPnl(legs', m) == PositionPnl(legs, m)
  {
    LegSumAgree(legs, legs', EntryValue, EntryValue);
    LegSumAgree(legs, legs', PnlIn(m), PnlIn(m));
  }

  lemma OpennessKept(legs: seq<Leg>, legs': seq<Leg>)
    requires ExitSteps(legs, legs')
    ensures IsOpen(legs') == IsOpen(legs)
  {
    if i :| 0 <= i < |legs| && (legs[i].Live() || legs[i].state.PendingOpen?) { assert legs'[i].Live() || legs'[i].state.PendingOpen?; }
    if i :| 0 <= i < |legs'| && (legs'[i].Live() || legs'[i].state.PendingOpen?) { assert legs[i].Live() || legs[i].state.PendingOpen?; }
  }

  lemma EstablishmentKept(legs: seq<Leg>, legs': seq<Leg>)
    requires ExitSteps(legs, legs')
    ensures Established(legs') == Established(legs)
  {
    if i :| 0 <= i < |legs| && legs[i].Filled() { assert legs'[i].Filled(); }
    if i :| 0 <= i < |legs'| && legs'[i].Filled() { assert legs[i].Filled(); }
  }

  lemma LegJudgementKept(l: Leg, l': Leg, m: Market)
    requires ExitStep(l, l')
    ensures LegPnlPct(l', m) == LegPnlPct(l, m) && (l'.state.Open? ==> l.state.Open?)
  {
  }

  /** Starting an exit changes no valuation, so no rule can start or stop triggering because of it. */
  lemma ExitKeepsJudgement(legs: seq<Leg>, legs': seq<Leg>, rule: Rule, m: Market)
    requires ExitSteps(legs, legs')
    ensures Triggers(legs', rule, m) == Triggers(legs, rule, m) && Moot(legs', rule) == Moot(legs, rule)
    ensures Armed(legs', rule) ==> Armed(legs, rule)
    ensures rule.leg.None? ==> Armed(legs', rule) == Armed(legs, rule)
  {
    hide ExitStep, IsOpen, Established, EntryNotional, PositionPnl, LegPnlPct;
    SumsKept(legs, legs', m);
    OpennessKept(legs, legs');
    EstablishmentKept(legs, legs');
    if rule.leg.Some? && rule.leg.value < |legs| {
      LegJudgementKept(legs[rule.leg.value], legs'[rule.leg.value], m);
    }
  }

  lemma OnlyExitsByLeg(b: Book, c: Book)
    requires SameShape(b, c) && forall q, i :: HasLeg(b, q, i) ==> ExitStep(LegAt(b, q, i), LegAt(c, q, i))
    ensures OnlyExits(b, c)
  {
    hide ExitStep;
    forall q | 0 <= q < |b.positions| ensures ExitSteps(b.positions[q].legs, c.positions[q].legs) {
      forall i | 0 <= i < |b.positions[q].legs| ensures ExitStep(b.positions[q].legs[i], c.positions[q].legs[i]) {
        assert HasLeg(b, q, i) && ExitStep(LegAt(b, q, i), LegAt(c, q, i));
      }
    }
  }

  lemma CloseLegOnlyExits(c: Book, p: nat, i: nat, now: int)
    requires HasLeg(c, p, i)
    ensures OnlyExits(c, SubmitCloseLeg(c, p, i, now, true))
  {
    OnlyExitsByLeg(c, SubmitCloseLeg(c, p, i, now, true));
  }

  lemma MatchedIsAddressed(c: Book)
    requires Matched(c)
    ensures Addressed(c, c.pending)
  {
  }

  lemma CloseOnlyExits(c: Book, p: nat, now: int)
    requires Matched(c) && p < |c.positions| && forall i :: HasLeg(c, p, i) ==> !LegAt(c, p, i).state.PendingOpen?
    ensures OnlyExits(c, SubmitClose(c, p, now, true))
  {
    hide MatchedBut, SubmitClose;
    MatchedIsAddressed(c);
    SubmitCloseEffect(c, p, now, true);
    OnlyExitsByLeg(c, SubmitClose(c, p, now, true));
  }

  lemma FireRuleOnlyExits(b: Book, m: Market, r: nat)
    requires Sound(b) && r < |b.rules| && Armed(b.positions[b.rules[r].position].legs, b.rules[r])
    ensures OnlyExits(b, FireRule(b, m, r))
  {
    hide MatchedBut, SubmitClose, SubmitCloseLeg, Balanced, Sane, ExitSteps;
    var p := b.rules[r].position;
    var c := Spend(b, r).(rulesFired := b.rulesFired + 1);
    SpendConsistent(b, r, b.rulesFired + 1);
    if b.rules[r].leg.None? {
      forall i | HasLeg(c, p, i) ensures !LegAt(c, p, i).state.PendingOpen? {
        assert c.positions[p].legs[i] == b.positions[p].legs[i];
      }
      CloseOnlyExits(c, p, m.now);
    } else {
      CloseLegOnlyExits(c, p, b.rules[r].leg.value, m.now);
    }
  }

  /** The rule has something to do. */
  predicate Due(legs: seq<Leg>, rule: Rule, m: Market) {
    Moot(legs, rule) || (Armed(legs, rule) && Triggers(legs, rule, m))
  }

  predicate SameRule(rule: Rule, rule': Rule) {
    rule' == rule.(fired := rule'.fired) && (rule.fired ==> rule'.fired)
  }

  /** What the first `k` rules look like after being visited: none that is due was left waiting, and
      none fired without being due when the pass began. */
  ghost predicate Judged(b: Book, c: Book, m: Market, k: nat) {
    && |c.rules| == |b.rules| && RulesAddressed(b) && OnlyExits(b, c)
    && (forall r :: 0 <= r < |b.rules| ==> SameRule(b.rules[r], c.rules[r]))
    && (forall r :: k <= r < |b.rules| ==> c.rules[r] == b.rules[r])
    && (forall r :: 0 <= r < k && r < |b.rules| && !c.rules[r].fired ==> !Due(c.positions[c.rules[r].position].legs, c.rules[r], m))
    && (forall r :: 0 <= r < k && r < |b.rules| && c.rules[r].fired && !b.rules[r].fired
          ==> Due(b.positions[b.rules[r].position].legs, b.rules[r], m))
  }

  lemma RunRuleOnlyExits(c: Book, m: Market, r: nat)
    requires Sound(c) && r < |c.rules|
    ensures var c' := RunRule(c, m, r);
            && OnlyExits(c, c') && c'.rules == c.rules[r := c.rules[r].(fired := c'.rules[r].fired)]
            && (c'.rules[r].fired <==> c.rules[r].fired || Due(c.positions[c.rules[r].position].legs, c.rules[r], m))
  {
    var rule := c.rules[r];
    var legs := c.positions[rule.position].legs;
    assert c.rules == c.rules[r := c.rules[r]];
    if !rule.fired && !Moot(legs, rule) && Armed(legs, rule) && Triggers(legs, rule, m) {
      FireRuleSound(c, m, r);
      FireRuleOnlyExits(c, m, r);
    }
  }

  lemma JudgedStep(b: Book, c: Book, m: Market, k: nat)
    requires Sound(c) && k < |b.rules| && Judged(b, c, m, k)
    ensures Judged(b, RunRule(c, m, k), m, k + 1)
  {
    var c' := RunRule(c, m, k);
    RunRuleOnlyExits(c, m, k);
    forall p | 0 <= p < |b.positions| ensures ExitSteps(b.positions[p].legs, c'.positions[p].legs) {
      assert ExitSteps(b.positions[p].legs, c.positions[p].legs) && ExitSteps(c.positions[p].legs, c'.positions[p].legs);
    }
    forall r | 0 <= r < k + 1
      ensures !c'.rules[r].fired ==> !Due(c'.positions[c'.rules[r].position].legs, c'.rules[r], m)
      ensures c'.rules[r].fired && !b.rules[r].fired ==> Due(b.positions[b.rules[r].position].legs, b.rules[r], m)
    {
      var p := b.rules[r].position;
      assert SameRule(b.rules[r], c.rules[r]);
      ExitKeepsJudgement(c.positions[p].legs, c'.positions[p].legs, c'.rules[r], m);
      if r == k {
        ExitKeepsJudgement(b.positions[p].legs, c.positions[p].legs, b.rules[r], m);
      }
    }
  }

  lemma {:induction false} RulesUptoJudged(b: Book, m: Market, k: nat)
    requires RulesAddressed(b) && Addressed(b, b.pending) && Sound(b) && k <= |b.rules|
    ensures Judged(b, RulesUpto(b, m, k), m, k)
  {
    hide Sound, RunRule;
    if k == 0 {
      NothingJudged(b, m);
    } else {
      RulesUptoJudged(b, m, k - 1);
      RulesUptoSound(b, m, k - 1);
      JudgedStep(b, RulesUpto(b, m, k - 1), m, k - 1);
    }
  }

  lemma NothingJudged(b: Book, m: Market)
    requires RulesAddressed(b)
    ensures Judged(b, b, m, 0)
  {
  }

  /** Stops are evaluated on every observation: after a pass no unspent rule is due, and every rule that
      was spent by the pass was due when the pass began. */
  lemma NoTriggerMissed(b: Book, m: Market)
    requires Sound(b)
    ensures var b' := ProcessRiskRules(b, m);
            && OnlyExits(b, b') && |b'.rules| == |b.rules|
            && forall r :: 0 <= r < |b.rules| ==>
                 && SameRule(b.rules[r], b'.rules[r])
                 && (!b'.rules[r].fired ==> !Due(b'.positions[b'.rules[r].position].legs, b'.rules[r], m))
                 && (b'.rules[r].fired && !b.rules[r].fired ==> Due(b.positions[b.rules[r].position].legs, b.rules[r], m))
  {
    RulesUptoJudged(b, m, |b.rules|);
    ProcessRiskRulesSound(b, m);
  }
}
