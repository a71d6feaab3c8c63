/** Settlement of an expired series and the close of a trading day keep the book sound. */
module EndOfDay {
  import opened Types
  import opened Books
  import opened Matching
  import opened Ledger
  import opened Soundness

  /** The registered instruments of the series. */
  function Series(m: Market, expiry: int): set<int> {
    set x | 0 <= x < |m.registry| && ExpiresOn(m, x, expiry)
  }

  lemma SeriesMeaning(m: Market, expiry: int, x: int)
    ensures x in Series(m, expiry) <==> ExpiresOn(m, x, expiry)
  {
  }

  /** Nothing of the series is held any more. */
  ghost predicate NoneHeld(b: Book, dead: set<int>) {
    forall p, i :: HasLeg(b, p, i) && LegAt(b, p, i).Live() ==> LegAt(b, p, i).instrument !in dead
  }

  // ----- settling the legs --------------------------------------------------------------------

  lemma SettleLegConsistent(b: Book, pol: Policy, m: Market, expiry: int, level: real, when: int, p: nat, i: nat)
    requires HasLeg(b, p, i) && Consistent(b, Series(m, expiry))
    ensures var b' := SettleLeg(b, pol, m, expiry, level, when, p, i);
            Consistent(b', Series(m, expiry)) && Evolves(b, b', false) && !Settles(LegAt(b', p, i), m, expiry)
  {
    var dead := Series(m, expiry);
    var l := LegAt(b, p, i);
    if Settles(l, m, expiry) {
      var b' := SettleLeg(b, pol, m, expiry, level, when, p, i);
      var l' := SettledLeg(l, m, level, when);
      SettledLegMatched(b, p, i, l', dead, b');
      TradeMove(b, p, i, l', b'.trades[|b.trades|], b');
      SaneStep(b, p, i, l', b');
      OneLegStep(b, p, i, l', b', false);
    } else {
      EvolvesReflexive(b, false);
    }
  }

  lemma SettledLegMatched(b: Book, p: nat, i: nat, l': Leg, dead: set<int>, b': Book)
    requires HasLeg(b, p, i) && MatchedBut(b, dead) && LegAt(b, p, i).instrument in dead
    requires LegAt(b, p, i).Live() && l'.state == Closed && l'.instrument == LegAt(b, p, i).instrument
    requires b'.positions == SetLeg(b, p, i, l').positions && b'.pending == b.pending && b'.delay == b.delay
    ensures MatchedBut(b', dead)
  {
    var s := SetLeg(b, p, i, l');
    forall k | 0 <= k < |b'.pending|
      ensures HasLeg(b', b'.pending[k].position, b'.pending[k].leg)
      ensures var l := LegAt(b', b'.pending[k].position, b'.pending[k].leg);
              OrderMatches(b'.pending[k], l, b'.delay) || (b'.pending[k].instrument == l.instrument && l.instrument in dead && l.state == Closed)
    {
      var o := b.pending[k];
      assert HasLeg(b, o.position, o.leg) && LegAt(b', o.position, o.leg) == LegAt(s, o.position, o.leg);
    }
    forall q, j | HasLeg(b', q, j)
      ensures var l := LegAt(b', q, j);
              OrdersOn(b'.pending, q, j) == (if l.Working() then 1 else 0) || (l.instrument in dead && l.state == Closed)
    {
      assert HasLeg(b, q, j) && LegAt(b', q, j) == LegAt(s, q, j);
    }
  }

  lemma {:induction false} SettleUptoConsistent(b: Book, pol: Policy, m: Market, expiry: int, level: real, when: int, p: nat, i: nat)
    requires Consistent(b, Series(m, expiry))
    requires p <= |b.positions| && (if p < |b.positions| then i <= |b.positions[p].legs| else i == 0)
    ensures var c := SettleUpto(b, pol, m, expiry, level, when, p, i);
            && Consistent(c, Series(m, expiry)) && Evolves(b, c, false)
            && forall q, j :: HasLeg(b, q, j) && (q < p || (q == p && j < i)) ==> !Settles(LegAt(c, q, j), m, expiry)
    decreases p, i
  {
    hide Consistent, Settles;
    if i > 0 {
      SettleUptoConsistent(b, pol, m, expiry, level, when, p, i - 1);
      var c := SettleUpto(b, pol, m, expiry, level, when, p, i - 1);
      var c' := SettleUpto(b, pol, m, expiry, level, when, p, i);
      SettleLegConsistent(c, pol, m, expiry, level, when, p, i - 1);
      EvolvesTransitive(b, c, c', false);
      forall q, j | HasLeg(b, q, j) && (q < p || (q == p && j < i)) ensures !Settles(LegAt(c', q, j), m, expiry) {
        if q != p || j != i - 1 {
          SettleLegElsewhere(c, pol, m, expiry, level, when, p, i - 1, q, j);
        }
      }
    } else if p > 0 {
      SettleUptoConsistent(b, pol, m, expiry, level, when, p - 1, |b.positions[p - 1].legs|);
    } else {
      EvolvesReflexive(b, false);
    }
  }

  lemma SettleLegElsewhere(b: Book, pol: Policy, m: Market, expiry: int, level: real, when: int, p: nat, i: nat, q: int, j: int)
    requires HasLeg(b, p, i) && HasLeg(b, q, j) && (q != p || j != i)
    ensures LegAt(SettleLeg(b, pol, m, expiry, level, when, p, i), q, j) == LegAt(b, q, j)
  {
    var l := LegAt(b, p, i);
    var s := SetLeg(b, p, i, SettledLeg(l, m, level, when));
    assert Settles(l, m, expiry) ==> SettleLeg(b, pol, m, expiry, level, when, p, i).positions == s.positions;
    assert LegAt(s, q, j) == LegAt(b, q, j);
  }

  // ----- dropping the orders ------------------------------------------------------------------

  ghost predicate PartwayBut(b: Book, c: Book, queue: seq<Order>, dead: set<int>) {
    && Consistent(c.(pending := queue), dead) && NoneHeld(c, dead) && Evolves(b, c, false) && c.rules == b.rules
  }

  lemma DropStep(b: Book, c: Book, m: Market, expiry: int, left: seq<Order>, o: Order, right: seq<Order>, c': Book)
    requires PartwayBut(b, c, left + [o] + right, Series(m, expiry)) && HasLeg(c, o.position, o.leg)
    requires ExpiresOn(m, o.instrument, expiry)
    requires var l := LegAt(c, o.position, o.leg);
             c' == SetLeg(c, o.position, o.leg, if !o.closing && l.state.PendingOpen? then l.(state := Cancelled) else l)
                   .(cancelled := c.cancelled + 1)
    ensures PartwayBut(b, c', left + right, Series(m, expiry))
  {
    var dead := Series(m, expiry);
    var d, d' := c.(pending := left + [o] + right), c'.(pending := left + right);
    assert d.pending[|left|] == o;
    var l := LegAt(d, o.position, o.leg);
    var l' := if !o.closing && l.state.PendingOpen? then l.(state := Cancelled) else l;
    RemoveOrder(d, left, o, right, l', dead, d');
    QuietMove(d, o.position, o.leg, l', d');
    SaneStep(d, o.position, o.leg, l', d');
    OneLegStep(c, o.position, o.leg, l', c', false);
    EvolvesTransitive(b, c, c', false);
    NoneHeldStep(c, o.position, o.leg, l', dead, c');
  }

  lemma NoneHeldStep(c: Book, p: nat, i: nat, l': Leg, dead: set<int>, c': Book)
    requires HasLeg(c, p, i) && NoneHeld(c, dead) && c'.positions == SetLeg(c, p, i, l').positions
    requires l'.Live() ==> LegAt(c, p, i).Live() && l'.instrument == LegAt(c, p, i).instrument
    ensures NoneHeld(c', dead)
  {
    var s := SetLeg(c, p, i, l');
    forall q, j | HasLeg(c', q, j) && LegAt(c', q, j).Live() ensures LegAt(c', q, j).instrument !in dead {
      assert HasLeg(c, q, j) && LegAt(c', q, j) == LegAt(s, q, j);
    }
  }

  lemma {:induction false} DropUptoConsistent(b: Book, m: Market, expiry: int, k: nat)
    requires Addressed(b, b.pending) && k <= |b.pending| && PartwayBut(b, b, b.pending, Series(m, expiry))
    ensures var (c, keep) := DropUpto(b, m, expiry, k);
            && PartwayBut(b, c, keep + b.pending[k..], Series(m, expiry))
            && forall j :: 0 <= j < |keep| ==> !ExpiresOn(m, keep[j].instrument, expiry)
  {
    hide PartwayBut, ExpiresOn;
    if k == 0 {
      assert [] + b.pending[0..] == b.pending;
    } else {
      DropUptoConsistent(b, m, expiry, k - 1);
      var (c, keep) := DropUpto(b, m, expiry, k - 1);
      Regroup(b.pending, keep, k);
      var o := b.pending[k - 1];
      if ExpiresOn(m, o.instrument, expiry) {
        var (c', _) := DropUpto(b, m, expiry, k);
        var l := LegAt(c, o.position, o.leg);
        SetLegSame(c, o.position, o.leg);
        DropStep(b, c, m, expiry, keep, o, b.pending[k..], c');
      }
    }
  }

  lemma SetLegSame(b: Book, p: nat, i: nat)
    requires HasLeg(b, p, i)
    ensures SetLeg(b, p, i, LegAt(b, p, i)) == b
  {
    assert b.positions[p].legs[i := LegAt(b, p, i)] == b.positions[p].legs;
    assert b.positions[p := b.positions[p]] == b.positions;
  }

  /** Once no order works on the series, the exemption for it is no longer needed. */
  lemma ExemptionEnds(b: Book, dead: set<int>)
    requires MatchedBut(b, dead) && forall k :: 0 <= k < |b.pending| ==> b.pending[k].instrument !in dead
    ensures Matched(b)
  {
    forall p, i | HasLeg(b, p, i) ensures OrdersOn(b.pending, p, i) == if LegAt(b, p, i).Working() then 1 else 0 {
      OrdersOnSome(b.pending, p, i);
      if OrdersOn(b.pending, p, i) > 0 {
        var k :| 0 <= k < |b.pending| && b.pending[k].position == p && b.pending[k].leg == i;
        assert b.pending[k].instrument == LegAt(b, p, i).instrument;
      }
    }
  }

  lemma ExemptionStarts(b: Book, dead: set<int>)
    requires Consistent(b, {})
    ensures Consistent(b, dead)
  {
  }

  /** Settling a series leaves the book sound, with nothing of the series held or on order. */
  lemma SettleExpirySound(b: Book, pol: Policy, m: Market, expiry: int, level: real, when: int)
    requires Sound(b)
    ensures var b' := SettleExpiry(b, pol, m, expiry, level, when);
            && Sound(b') && Evolves(b, b', false) && NoneHeld(b', Series(m, expiry))
            && forall k :: 0 <= k < |b'.pending| ==> !ExpiresOn(m, b'.pending[k].instrument, expiry)
  {
    var dead := Series(m, expiry);
    ExemptionStarts(b, dead);
    SettleUptoConsistent(b, pol, m, expiry, level, when, |b.positions|, 0);
    var c := SettleUpto(b, pol, m, expiry, level, when, |b.positions|, 0);
    SettleUptoRules(b, pol, m, expiry, level, when, |b.positions|, 0);
    assert NoneHeld(c, dead) by {
      forall p, i | HasLeg(c, p, i) && LegAt(c, p, i).Live() ensures LegAt(c, p, i).instrument !in dead {
        assert HasLeg(b, p, i) && !Settles(LegAt(c, p, i), m, expiry);
      }
    }
    DropExpiredSound(b, c, m, expiry);
  }

  lemma DropExpiredSound(b: Book, c: Book, m: Market, expiry: int)
    requires SpentRules(b) && Addressed(c, c.pending)
    requires Consistent(c, Series(m, expiry)) && NoneHeld(c, Series(m, expiry)) && Evolves(b, c, false) && c.rules == b.rules
    ensures var b' := DropExpired(c, m, expiry);
            && Sound(b') && Evolves(b, b', false) && NoneHeld(b', Series(m, expiry))
            && forall k :: 0 <= k < |b'.pending| ==> !ExpiresOn(m, b'.pending[k].instrument, expiry)
  {
    EvolvesReflexive(c, false);
    DropUptoConsistent(c, m, expiry, |c.pending|);
    var (d, keep) := DropUpto(c, m, expiry, |c.pending|);
    assert keep + c.pending[|c.pending|..] == keep;
    var b' := DropExpired(c, m, expiry);
    assert Evolves(c, b', false);
    EvolvesTransitive(b, c, b', false);
    ExemptionEnds(b', Series(m, expiry));
    hide MatchedBut, Balanced, Sane;
    SpentRulesKept(b, b');
  }

  // ----- the close ----------------------------------------------------------------------------

  /** Every leg that became exposed belongs to a remembered position. */
  ghost predicate Remembered(b: Book, c: Book, exits: set<nat>) {
    forall p, i :: HasLeg(b, p, i) && HasLeg(c, p, i) && Exposed(LegAt(c, p, i)) && !Exposed(LegAt(b, p, i)) ==> p in exits
  }

  /** Half way through the close: `k` orders are gone, and every leg reopened so far is remembered. */
  ghost predicate Abandoning(b: Book, c: Book, exits: set<nat>, k: nat, queue: seq<Order>) {
    && Consistent(c.(pending := queue, cancelled := c.cancelled + k), {}) && Evolves(b, c, true) && Remembered(b, c, exits)
  }

  lemma HeadWorks(c: Book, o: Order, right: seq<Order>)
    requires Consistent(c.(pending := [o] + right), {}) && HasLeg(c, o.position, o.leg)
    ensures LegAt(c, o.position, o.leg).state == if o.closing then PendingClose else PendingOpen
  {
    var d := c.(pending := [o] + right);
    assert OrderMatches(d.pending[0], LegAt(d, o.position, o.leg), d.delay);
  }

  lemma RememberedNext(b: Book, c: Book, exits: set<nat>, p: nat, i: nat, l': Leg, more: set<nat>)
    requires Remembered(b, c, exits) && HasLeg(c, p, i) && exits <= more && (Exposed(l') ==> p in more)
    ensures Remembered(b, SetLeg(c, p, i, l'), more)
  {
    var c' := SetLeg(c, p, i, l');
    forall q, j | HasLeg(b, q, j) && HasLeg(c', q, j) && Exposed(LegAt(c', q, j)) && !Exposed(LegAt(b, q, j)) ensures q in more {
      assert HasLeg(c, q, j);
    }
  }

  lemma AbandonStep(b: Book, c: Book, exits: set<nat>, k: nat, o: Order, right: seq<Order>)
    requires Abandoning(b, c, exits, k, [o] + right) && HasLeg(c, o.position, o.leg)
    ensures var l := LegAt(c, o.position, o.leg);
            l.state == if o.closing then PendingClose else PendingOpen
    ensures var l := LegAt(c, o.position, o.leg);
            Abandoning(b, SetLeg(c, o.position, o.leg, l.(state := if o.closing then Open else Cancelled)),
                       if o.closing then exits + {o.position} else exits, k + 1, right)
  {
    hide Consistent, Evolves, Remembered;
    var l := LegAt(c, o.position, o.leg);
    var d := c.(cancelled := c.cancelled + k);
    HeadWorks(d, o, right);
    var l' := l.(state := if o.closing then Open else Cancelled);
    var c' := SetLeg(c, o.position, o.leg, l');
    assert [] + [o] + right == [o] + right && [] + right == right;
    var d' := c'.(cancelled := c.cancelled + k + 1);
    assert d' == SetLeg(d, o.position, o.leg, l').(cancelled := d.cancelled + 1);
    WithdrawStep(d, [], o, right, d');
    AbandonEvolves(b, c, o.position, o.leg, l', c');
    RememberedNext(b, c, exits, o.position, o.leg, l', if o.closing then exits + {o.position} else exits);
  }

  lemma AbandonEvolves(b: Book, c: Book, p: nat, i: nat, l': Leg, c': Book)
    requires Evolves(b, c, true) && HasLeg(c, p, i) && c' == SetLeg(c, p, i, l') && LegAt(c, p, i).Working()
    requires l' == LegAt(c, p, i).(state := if LegAt(c, p, i).state.PendingClose? then Open else Cancelled)
    ensures Evolves(b, c', true)
  {
    hide Evolves;
    OneLegStep(c, p, i, l', c', true);
    EvolvesTransitive(b, c, c', true);
  }

  lemma NothingAbandoned(b: Book)
    requires Addressed(b, b.pending)
    ensures AbandonUpto(b, 0) == (b, {})
  {
  }

  lemma AbandonNext(b: Book, k: nat)
    requires Addressed(b, b.pending) && 0 < k <= |b.pending|
    ensures var (c, exits) := AbandonUpto(b, k - 1);
            var o := b.pending[k - 1];
            && HasLeg(c, o.position, o.leg)
            && (LegAt(c, o.position, o.leg).state == (if o.closing then PendingClose else PendingOpen) ==>
                  AbandonUpto(b, k) == (SetLeg(c, o.position, o.leg, LegAt(c, o.position, o.leg).(state := if o.closing then Open else Cancelled)),
                                        if o.closing then exits + {o.position} else exits))
  {
    hide SetLeg;
  }

  lemma {:induction false} AbandonUptoConsistent(b: Book, k: nat)
    requires Addressed(b, b.pending) && k <= |b.pending| && Abandoning(b, b, {}, 0, b.pending)
    ensures var (c, exits) := AbandonUpto(b, k); Abandoning(b, c, exits, k, b.pending[k..])
  {
    hide Abandoning, AbandonUpto, SetLeg;
    if k == 0 {
      NothingAbandoned(b);
      assert b.pending[0..] == b.pending;
    } else {
      AbandonUptoConsistent(b, k - 1);
      var (c, exits) := AbandonUpto(b, k - 1);
      assert b.pending[k - 1..] == [b.pending[k - 1]] + b.pending[k..];
      AbandonNext(b, k);
      AbandonStep(b, c, exits, k - 1, b.pending[k - 1], b.pending[k..]);
    }
  }

  lemma AbandonAll(b: Book)
    requires Sound(b)
    ensures var (c, exits) := AbandonUpto(b, |b.pending|); Abandoning(b, c, exits, |b.pending|, [])
  {
    EvolvesReflexive(b, true);
    assert b == b.(pending := b.pending, cancelled := b.cancelled + 0);
    AbandonUptoConsistent(b, |b.pending|);
    assert b.pending[|b.pending|..] == [];
  }

  lemma NothingWorks(b: Book)
    requires Matched(b) && b.pending == []
    ensures forall p, i :: HasLeg(b, p, i) ==> !LegAt(b, p, i).Working()
  {
    forall p, i | HasLeg(b, p, i) ensures !LegAt(b, p, i).Working() {
      assert OrdersOn(b.pending, p, i) == 0;
    }
  }

  lemma OtherRules(b: Book, rules: seq<Rule>)
    requires Consistent(b, {})
    ensures Consistent(b.(rules := rules), {})
  {
  }

  /** At the close no order survives, every leg is open, closed or cancelled, and any rule whose exit
      was abandoned guards its position again. */
  lemma CancelWorkingSound(b: Book)
    requires Sound(b)
    ensures var b' := CancelWorking(b);
            && Sound(b') && Evolves(b, b', true) && b'.pending == []
            && forall p, i :: HasLeg(b', p, i) ==> !LegAt(b', p, i).Working()
  {
    hide MatchedBut, Balanced, Sane, Timely, SpentRules, Evolves, Remembered;
    SoundIsReady(b);
    AbandonAll(b);
    var (c, exits) := AbandonUpto(b, |b.pending|);
    var b' := CancelWorking(b);
    OtherRules(c.(pending := [], cancelled := c.cancelled + |b.pending|), b'.rules);
    assert b' == c.(pending := [], cancelled := c.cancelled + |b.pending|).(rules := b'.rules);
    NothingWorks(b');
    SameEvolution(b, c, b');
    RearmedSpent(b, c, exits, b');
  }

  lemma SoundIsReady(b: Book)
    requires Sound(b)
    ensures Addressed(b, b.pending) && RulesAddressed(b)
  {
  }

  lemma SameEvolution(b: Book, c: Book, c': Book)
    requires Evolves(b, c, true) && c'.positions == c.positions && c'.trades == c.trades && c'.delay == c.delay
    ensures Evolves(b, c', true)
  {
    forall p, i | HasLeg(b, p, i) ensures LegStep(LegAt(b, p, i), LegAt(c', p, i), true) {
      assert LegAt(c', p, i) == LegAt(c, p, i);
      assert LegStep(LegAt(b, p, i), LegAt(c, p, i), true);
    }
  }

  lemma RearmedSpent(b: Book, c: Book, exits: set<nat>, b': Book)
    requires SpentRules(b) && SameShape(b, c) && c.rules == b.rules && RulesAddressed(c)
    requires Remembered(b, c, exits)
    requires b'.positions == c.positions && b'.rules == RearmRules(c, exits)
    ensures SpentRules(b')
  {
    forall r | 0 <= r < |b'.rules| && b'.rules[r].fired
      ensures Idle(b'.positions[b'.rules[r].position].legs, b'.rules[r].leg)
    {
      var p := b.rules[r].position;
      assert b'.rules[r] == Rearmed(c, exits, b.rules[r]);
      if IsOpen(c.positions[p].legs) {
        forall i | 0 <= i < |c.positions[p].legs| && !Exposed(b.positions[p].legs[i]) ensures !Exposed(c.positions[p].legs[i]) {
          assert HasLeg(b, p, i);
        }
      }
    }
  }
}
