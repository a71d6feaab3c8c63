/** Every portfolio operation keeps the book sound: orders match legs, the ledger balances, trades
    respect the execution delay, and spent rules guard nothing that could still lose money. */
module Soundness {
  import opened Types
  import opened Books
  import opened Matching
  import opened Ledger

  /** No order trades before it becomes eligible. */
  predicate Timely(b: Book) {
    forall k :: 0 <= k < |b.trades| ==> b.trades[k].settled || b.trades[k].fillTs >= b.trades[k].signalTs + b.delay
  }

  /** What a rule that has fired leaves behind: nothing open, and nothing about to open. */
  predicate Idle(legs: seq<Leg>, leg: Option<nat>) {
    match leg
    case None => forall i :: 0 <= i < |legs| ==> !Exposed(legs[i])
    case Some(i) => i < |legs| ==> !Exposed(legs[i])
  }

  ghost predicate SpentRules(b: Book) {
    && RulesAddressed(b)
    && forall r :: 0 <= r < |b.rules| && b.rules[r].fired ==> Idle(b.positions[b.rules[r].position].legs, b.rules[r].leg)
  }

  ghost predicate Consistent(b: Book, dead: set<int>) {
    MatchedBut(b, dead) && Sane(b) && Balanced(b) && Timely(b)
  }

  ghost predicate Sound(b: Book) {
    Consistent(b, {}) && SpentRules(b)
  }

  /** Half way through a pass over the queue: `c` is the book so far, `queue` what is kept and still to visit. */
  ghost predicate Partway(b: Book, c: Book, queue: seq<Order>) {
    Consistent(c.(pending := queue), {}) && Evolves(b, c, false) && c.rules == b.rules
  }

  lemma EmptyIsSound(delay: int)
    ensures Sound(EmptyBook(delay))
  {
  }

  // ----- small steps --------------------------------------------------------------------------

  lemma SpentRulesKept(b: Book, b': Book)
    requires SpentRules(b) && LegsStep(b, b', false) && b'.rules == b.rules
    ensures SpentRules(b')
  {
    forall r | 0 <= r < |b'.rules| && b'.rules[r].fired
      ensures Idle(b'.positions[b'.rules[r].position].legs, b'.rules[r].leg)
    {
      var p := b.rules[r].position;
      forall i | 0 <= i < |b'.positions[p].legs| && !Exposed(b.positions[p].legs[i])
        ensures !Exposed(b'.positions[p].legs[i])
      {
        assert HasLeg(b, p, i) && LegStep(LegAt(b, p, i), LegAt(b', p, i), false);
      }
    }
  }

  lemma OneLegStep(b: Book, p: int, i: int, l': Leg, b': Book, reopening: bool)
    requires HasLeg(b, p, i) && LegStep(LegAt(b, p, i), l', reopening)
    requires b'.positions == SetLeg(b, p, i, l').positions && b.trades <= b'.trades && b'.delay == b.delay
    ensures Evolves(b, b', reopening)
  {
    var s := SetLeg(b, p, i, l');
    forall q, j | HasLeg(b, q, j) ensures LegStep(LegAt(b, q, j), LegAt(b', q, j), reopening) {
      assert LegAt(b', q, j) == LegAt(s, q, j);
    }
  }

  lemma SaneStep(b: Book, p: int, i: int, l': Leg, b': Book)
    requires HasLeg(b, p, i) && Sane(b) && l'.qty == LegAt(b, p, i).qty && (l'.settled ==> l'.state == Closed)
    requires b'.positions == SetLeg(b, p, i, l').positions
    ensures Sane(b')
  {
    var s := SetLeg(b, p, i, l');
    forall q, j | HasLeg(b', q, j)
      ensures LegAt(b', q, j).qty != 0 && (LegAt(b', q, j).settled ==> LegAt(b', q, j).state == Closed)
    {
      assert HasLeg(b, q, j) && LegAt(b', q, j) == LegAt(s, q, j);
    }
  }

  /** An order is withdrawn: an unfilled opening cancels its leg, an unfilled exit reopens it. */
  lemma WithdrawStep(c: Book, left: seq<Order>, o: Order, right: seq<Order>, c': Book)
    requires Consistent(c.(pending := left + [o] + right), {}) && HasLeg(c, o.position, o.leg)
    requires c' == SetLeg(c, o.position, o.leg, LegAt(c, o.position, o.leg).(state := if o.closing then Open else Cancelled))
                   .(cancelled := c.cancelled + 1)
    ensures Consistent(c'.(pending := left + right), {}) && Evolves(c, c', o.closing)
  {
    var b, b' := c.(pending := left + [o] + right), c'.(pending := left + right);
    assert b.pending[|left|] == o;
    var l := LegAt(b, o.position, o.leg);
    assert OrderMatches(o, l, b.delay);
    var l' := l.(state := if o.closing then Open else Cancelled);
    RemoveOrder(b, left, o, right, l', {}, b');
    QuietMove(b, o.position, o.leg, l', b');
    SaneStep(b, o.position, o.leg, l', b');
    OneLegStep(c, o.position, o.leg, l', c', o.closing);
  }

  lemma CancelPartway(b: Book, c: Book, left: seq<Order>, o: Order, right: seq<Order>)
    requires Partway(b, c, left + [o] + right) && HasLeg(c, o.position, o.leg) && !o.closing
    ensures Partway(b, SetLeg(c, o.position, o.leg, LegAt(c, o.position, o.leg).(state := Cancelled))
                       .(cancelled := c.cancelled + 1), left + right)
  {
    hide Consistent, Evolves;
    var c' := SetLeg(c, o.position, o.leg, LegAt(c, o.position, o.leg).(state := Cancelled)).(cancelled := c.cancelled + 1);
    WithdrawStep(c, left, o, right, c');
    EvolvesTransitive(b, c, c', false);
  }

  lemma FillStep(c: Book, pol: Policy, m: Market, left: seq<Order>, o: Order, right: seq<Order>)
    requires Consistent(c.(pending := left + [o] + right), {}) && HasLeg(c, o.position, o.leg)
    requires FillPrice(pol, m, o).Some?
    ensures var c' := Fill(c, pol, m, o); Consistent(c'.(pending := left + right), {}) && Evolves(c, c', false)
  {
    var c' := Fill(c, pol, m, o);
    var b, b' := c.(pending := left + [o] + right), c'.(pending := left + right);
    assert b.pending[|left|] == o;
    var l := LegAt(b, o.position, o.leg);
    assert OrderMatches(o, l, b.delay);
    var l' := FilledLeg(l, o.closing, FillPrice(pol, m, o).value, m.now);
    RemoveOrder(b, left, o, right, l', {}, b');
    TradeMove(b, o.position, o.leg, l', b'.trades[|b.trades|], b');
    SaneStep(b, o.position, o.leg, l', b');
    OneLegStep(c, o.position, o.leg, l', c', false);
  }

  lemma FillPartway(b: Book, c: Book, pol: Policy, m: Market, left: seq<Order>, o: Order, right: seq<Order>)
    requires Partway(b, c, left + [o] + right) && HasLeg(c, o.position, o.leg) && FillPrice(pol, m, o).Some?
    ensures Partway(b, Fill(c, pol, m, o), left + right)
  {
    hide Consistent, Evolves;
    FillStep(c, pol, m, left, o, right);
    EvolvesTransitive(b, c, Fill(c, pol, m, o), false);
  }

  lemma Regroup(queue: seq<Order>, kept: seq<Order>, k: nat)
    requires 0 < k <= |queue|
    ensures kept + queue[k - 1..] == kept + [queue[k - 1]] + queue[k..]
  {
  }

  // ----- submitting ---------------------------------------------------------------------------

  lemma {:induction false} NewOrdersCount(orders: seq<Order>, id: nat, p: int, i: int)
    requires forall k :: 0 <= k < |orders| ==> orders[k].position == id && orders[k].leg == k
    ensures OrdersOn(orders, p, i) == if p == id && 0 <= i < |orders| then 1 else 0
  {
    if orders != [] {
      NewOrdersCount(orders[..|orders| - 1], id, p, i);
    }
  }

  lemma SubmitOpenCounts(b: Book, name: string, instruments: seq<int>, side: Side, qty: int, now: int, p: int, i: int)
    requires Matched(b) && CanOpen(instruments, qty)
    requires HasLeg(SubmitOpen(b, name, instruments, side, qty, now), p, i)
    ensures var b' := SubmitOpen(b, name, instruments, side, qty, now);
            OrdersOn(b'.pending, p, i) == if LegAt(b', p, i).Working() then 1 else 0
  {
    var b' := SubmitOpen(b, name, instruments, side, qty, now);
    var added := b'.pending[|b.pending|..];
    assert b'.pending == b.pending + added;
    OrdersOnConcat(b.pending, added, p, i);
    NewOrdersCount(added, |b.positions|, p, i);
    OrdersOnSome(b.pending, p, i);
    if p < |b.positions| { assert HasLeg(b, p, i); }
  }

  lemma SubmitOpenFits(b: Book, name: string, instruments: seq<int>, side: Side, qty: int, now: int, k: int)
    requires Matched(b) && CanOpen(instruments, qty)
    requires 0 <= k < |SubmitOpen(b, name, instruments, side, qty, now).pending|
    ensures var b' := SubmitOpen(b, name, instruments, side, qty, now);
            HasLeg(b', b'.pending[k].position, b'.pending[k].leg)
            && OrderMatches(b'.pending[k], LegAt(b', b'.pending[k].position, b'.pending[k].leg), b'.delay)
  {
    hide OrdersOn;
    if k < |b.pending| { assert OrderMatches(b.pending[k], LegAt(b, b.pending[k].position, b.pending[k].leg), b.delay); }
  }

  lemma SubmitOpenMatched(b: Book, name: string, instruments: seq<int>, side: Side, qty: int, now: int)
    requires Matched(b) && CanOpen(instruments, qty)
    ensures Matched(SubmitOpen(b, name, instruments, side, qty, now))
  {
    hide SubmitOpen, OrdersOn, OrderMatches;
    var b' := SubmitOpen(b, name, instruments, side, qty, now);
    forall p, i | HasLeg(b', p, i)
      ensures OrdersOn(b'.pending, p, i) == if LegAt(b', p, i).Working() then 1 else 0
    {
      SubmitOpenCounts(b, name, instruments, side, qty, now, p, i);
    }
    forall k | 0 <= k < |b'.pending|
      ensures HasLeg(b', b'.pending[k].position, b'.pending[k].leg)
              && OrderMatches(b'.pending[k], LegAt(b', b'.pending[k].position, b'.pending[k].leg), b'.delay)
    {
      SubmitOpenFits(b, name, instruments, side, qty, now, k);
    }
  }

  lemma SubmitOpenBalanced(b: Book, name: string, instruments: seq<int>, side: Side, qty: int, now: int)
    requires Balanced(b) && CanOpen(instruments, qty)
    ensures Balanced(SubmitOpen(b, name, instruments, side, qty, now))
  {
    var b' := SubmitOpen(b, name, instruments, side, qty, now);
    var pos := b'.positions[|b.positions|];
    BookSumAppend(b.positions, pos, LiveEntry);
    LegSumZero(pos.legs, LiveEntry);
    BookSumAppend(b.positions, pos, SettledFlag);
    LegSumZero(pos.legs, SettledFlag);
    LegSumZero(pos.legs, LegCash);
    forall x ensures TradeSum(b'.trades, TradedQty(x)) == BookSum(b'.positions, HeldQty(x)) {
      BookSumAppend(b.positions, pos, HeldQty(x));
      LegSumZero(pos.legs, HeldQty(x));
    }
  }

  lemma SubmitOpenSane(b: Book, name: string, instruments: seq<int>, side: Side, qty: int, now: int)
    requires Sane(b) && CanOpen(instruments, qty)
    ensures var b' := SubmitOpen(b, name, instruments, side, qty, now); Sane(b') && Evolves(b, b', false)
  {
    var b' := SubmitOpen(b, name, instruments, side, qty, now);
    forall p, i | HasLeg(b', p, i)
      ensures LegAt(b', p, i).qty != 0 && (LegAt(b', p, i).settled ==> LegAt(b', p, i).state == Closed)
      ensures HasLeg(b, p, i) ==> LegAt(b', p, i) == LegAt(b, p, i)
    {
      if p < |b.positions| { assert HasLeg(b, p, i); }
    }
  }

  lemma SubmitOpenSound(b: Book, name: string, instruments: seq<int>, side: Side, qty: int, now: int)
    requires Sound(b) && CanOpen(instruments, qty)
    ensures var b' := SubmitOpen(b, name, instruments, side, qty, now); Sound(b') && Evolves(b, b', false)
  {
    hide MatchedBut, Balanced, Sane;
    SubmitOpenMatched(b, name, instruments, side, qty, now);
    SubmitOpenBalanced(b, name, instruments, side, qty, now);
    SubmitOpenSane(b, name, instruments, side, qty, now);
    SpentRulesKept(b, SubmitOpen(b, name, instruments, side, qty, now));
  }

  lemma CloseLegConsistent(b: Book, p: nat, i: nat, now: int, fromRule: bool)
    requires HasLeg(b, p, i) && Consistent(b, {})
    ensures var b' := SubmitCloseLeg(b, p, i, now, fromRule);
            Consistent(b', {}) && Evolves(b, b', false) && !LegAt(b', p, i).state.Open?
    ensures LegAt(b, p, i).state.PendingOpen? || !Exposed(LegAt(SubmitCloseLeg(b, p, i, now, fromRule), p, i))
  {
    CloseLegMatched(b, p, i, now, fromRule);
    if LegAt(b, p, i).state == Open {
      QuietMove(b, p, i, LegAt(b, p, i).(state := PendingClose), SubmitCloseLeg(b, p, i, now, fromRule));
    }
  }

  lemma {:induction false} WithdrawUptoConsistent(b: Book, p: nat, k: nat)
    requires Addressed(b, b.pending) && Partway(b, b, b.pending) && k <= |b.pending|
    ensures var (c, keep) := WithdrawUpto(b, p, k);
            Partway(b, c, keep + b.pending[k..]) && forall j :: 0 <= j < |keep| ==> !OpensPosition(keep[j], p)
  {
    hide Partway;
    if k == 0 {
      assert [] + b.pending[0..] == b.pending;
    } else {
      WithdrawUptoConsistent(b, p, k - 1);
      var (c, keep) := WithdrawUpto(b, p, k - 1);
      Regroup(b.pending, keep, k);
      if OpensPosition(b.pending[k - 1], p) {
        CancelPartway(b, c, keep, b.pending[k - 1], b.pending[k..]);
      }
    }
  }

  /** After the withdrawals no leg of the position waits to open. */
  lemma WithdrawOpeningsConsistent(b: Book, p: nat)
    requires Consistent(b, {})
    ensures var b' := WithdrawOpenings(b, p);
            && Consistent(b', {}) && Evolves(b, b', false)
            && forall i :: HasLeg(b', p, i) ==> !LegAt(b', p, i).state.PendingOpen?
  {
    WithdrawUptoConsistent(b, p, |b.pending|);
    var (c, keep) := WithdrawUpto(b, p, |b.pending|);
    var b' := WithdrawOpenings(b, p);
    assert keep + b.pending[|b.pending|..] == keep;
    forall i | HasLeg(b', p, i) ensures !LegAt(b', p, i).state.PendingOpen? {
      OrdersOnSome(keep, p, i);
      if OrdersOn(keep, p, i) > 0 {
        var k :| 0 <= k < |keep| && keep[k].position == p && keep[k].leg == i;
        assert OrderMatches(b'.pending[k], LegAt(b', p, i), b'.delay);
      }
    }
  }

  /** The first `i` legs of a position are neither open nor about to open. */
  ghost predicate Hidden(c: Book, p: nat, i: nat) {
    p < |c.positions| && i <= |c.positions[p].legs| && forall j :: 0 <= j < i ==> !Exposed(LegAt(c, p, j))
  }

  lemma HiddenNext(c: Book, c': Book, p: nat, i: nat)
    requires Hidden(c, p, i) && Evolves(c, c', false) && HasLeg(c', p, i) && !Exposed(LegAt(c', p, i))
    ensures Hidden(c', p, i + 1)
  {
    forall j | 0 <= j < i + 1 ensures !Exposed(LegAt(c', p, j)) {
      if j < i {
        assert HasLeg(c, p, j) && LegStep(LegAt(c, p, j), LegAt(c', p, j), false);
      }
    }
  }

  lemma NotWaiting(b: Book, c: Book, p: nat, i: nat)
    requires Evolves(b, c, false) && HasLeg(b, p, i) && HasLeg(c, p, i) && !LegAt(b, p, i).state.PendingOpen?
    ensures !LegAt(c, p, i).state.PendingOpen?
  {
    assert LegStep(LegAt(b, p, i), LegAt(c, p, i), false);
  }

  lemma {:induction false} CloseLegsUptoConsistent(b: Book, p: nat, i: nat, now: int, fromRule: bool)
    requires p < |b.positions| && i <= |b.positions[p].legs| && Consistent(b, {})
    requires forall j :: HasLeg(b, p, j) ==> !LegAt(b, p, j).state.PendingOpen?
    ensures var c := CloseLegsUpto(b, p, i, now, fromRule);
            && Consistent(c, {}) && Evolves(b, c, false) && Hidden(c, p, i)
  {
    hide Consistent, Evolves, SubmitCloseLeg;
    EvolvesReflexive(b, false);
    if i > 0 {
      CloseLegsUptoConsistent(b, p, i - 1, now, fromRule);
      var c := CloseLegsUpto(b, p, i - 1, now, fromRule);
      var c' := CloseLegsUpto(b, p, i, now, fromRule);
      assert HasLeg(b, p, i - 1) && HasLeg(c, p, i - 1);
      NotWaiting(b, c, p, i - 1);
      CloseLegConsistent(c, p, i - 1, now, fromRule);
      EvolvesTransitive(b, c, c', false);
      HiddenNext(c, c', p, i - 1);
    }
  }

  /** Closing a position leaves none of its legs open or about to open. */
  lemma SubmitCloseSound(b: Book, p: nat, now: int, fromRule: bool)
    requires Sound(b) && p < |b.positions|
    ensures var b' := SubmitClose(b, p, now, fromRule);
            Sound(b') && Evolves(b, b', false) && Idle(b'.positions[p].legs, None)
  {
    SubmitCloseConsistent(b, p, now, fromRule);
    SpentRulesKept(b, SubmitClose(b, p, now, fromRule));
  }

  lemma SubmitCloseConsistent(b: Book, p: nat, now: int, fromRule: bool)
    requires Consistent(b, {}) && p < |b.positions|
    ensures var b' := SubmitClose(b, p, now, fromRule);
            Consistent(b', {}) && Evolves(b, b', false) && Idle(b'.positions[p].legs, None)
  {
    assert Addressed(b, b.pending);
    hide Consistent, Evolves, WithdrawOpenings, CloseLegsUpto;
    WithdrawOpeningsConsistent(b, p);
    var c := WithdrawOpenings(b, p);
    CloseLegsUptoConsistent(c, p, |c.positions[p].legs|, now, fromRule);
    var b' := SubmitClose(b, p, now, fromRule);
    EvolvesTransitive(b, c, b', false);
    assert forall j :: 0 <= j < |b'.positions[p].legs| ==> LegAt(b', p, j) == b'.positions[p].legs[j];
  }

  lemma SubmitCloseLegSound(b: Book, p: nat, i: nat, now: int, fromRule: bool)
    requires Sound(b) && HasLeg(b, p, i)
    ensures var b' := SubmitCloseLeg(b, p, i, now, fromRule); Sound(b') && Evolves(b, b', false)
  {
    CloseLegConsistent(b, p, i, now, fromRule);
    SpentRulesKept(b, SubmitCloseLeg(b, p, i, now, fromRule));
  }

  lemma AttachRuleSound(b: Book, kind: RuleKind, p: nat, leg: Option<nat>)
    requires Sound(b) && p < |b.positions|
    ensures var b' := AttachRule(b, kind, p, leg); Sound(b') && Evolves(b, b', false)
  {
  }

  // ----- filling ------------------------------------------------------------------------------

  lemma {:induction false} ProcessUptoConsistent(b: Book, pol: Policy, m: Market, k: nat)
    requires Addressed(b, b.pending) && Partway(b, b, b.pending) && k <= |b.pending|
    ensures var (c, still) := ProcessUpto(b, pol, m, k); Partway(b, c, still + b.pending[k..])
  {
    hide Partway, FillPrice, Fill;
    if k == 0 {
      assert [] + b.pending[0..] == b.pending;
    } else {
      ProcessUptoConsistent(b, pol, m, k - 1);
      var (c, still) := ProcessUpto(b, pol, m, k - 1);
      Regroup(b.pending, still, k);
      if FillPrice(pol, m, b.pending[k - 1]).Some? {
        FillPartway(b, c, pol, m, still, b.pending[k - 1], b.pending[k..]);
      }
    }
  }

  lemma ProcessPendingSound(b: Book, pol: Policy, m: Market)
    requires Sound(b)
    ensures var b' := ProcessPending(b, pol, m); Sound(b') && Evolves(b, b', false)
  {
    ProcessUptoConsistent(b, pol, m, |b.pending|);
    var (c, still) := ProcessUpto(b, pol, m, |b.pending|);
    assert still + b.pending[|b.pending|..] == still;
    var b' := ProcessPending(b, pol, m);
    assert Evolves(b, b', false);
    SpentRulesKept(b, b');
  }

  // ----- marks --------------------------------------------------------------------------------

  lemma RemarkedStep(l: Leg, m: Market)
    ensures var l' := Remarked(l, m);
            && l' == l.(lastMark := l'.lastMark, lastMarkTs := l'.lastMarkTs) && (!l.Live() ==> l' == l)
            && LegStep(l, l', false)
  {
  }

  lemma RefreshMatched(b: Book, m: Market)
    requires Matched(b)
    ensures Matched(RefreshMarks(b, m))
  {
    hide Remarked, LegStep;
    var b' := RefreshMarks(b, m);
    forall p, i | HasLeg(b', p, i)
      ensures OrdersOn(b'.pending, p, i) == if LegAt(b', p, i).Working() then 1 else 0
    {
      assert HasLeg(b, p, i);
      RemarkedStep(LegAt(b, p, i), m);
    }
    forall k | 0 <= k < |b'.pending|
      ensures HasLeg(b', b'.pending[k].position, b'.pending[k].leg)
      ensures OrderMatches(b'.pending[k], LegAt(b', b'.pending[k].position, b'.pending[k].leg), b'.delay)
    {
      var o := b.pending[k];
      RemarkedStep(LegAt(b, o.position, o.leg), m);
      assert OrderMatches(o, LegAt(b, o.position, o.leg), b.delay);
    }
  }

  lemma RefreshEvolves(b: Book, m: Market)
    requires Sane(b)
    ensures Evolves(b, RefreshMarks(b, m), false) && Sane(RefreshMarks(b, m))
  {
    hide Remarked, LegStep;
    var b' := RefreshMarks(b, m);
    forall p, i | HasLeg(b', p, i)
      ensures LegStep(LegAt(b, p, i), LegAt(b', p, i), false)
      ensures LegAt(b', p, i).qty != 0 && (LegAt(b', p, i).settled ==> LegAt(b', p, i).state == Closed)
    {
      assert HasLeg(b, p, i);
      RemarkedStep(LegAt(b, p, i), m);
    }
  }

  lemma RefreshMarksSound(b: Book, m: Market)
    requires Sound(b)
    ensures var b' := RefreshMarks(b, m); Sound(b') && Evolves(b, b', false)
  {
    hide MatchedBut, Balanced, Sane, LegsStep;
    RefreshMatched(b, m);
    RefreshMarksBalanced(b, m);
    RefreshEvolves(b, m);
    SpentRulesKept(b, RefreshMarks(b, m));
  }

  /** Marking changes no amount that does not look at the marks. */
  lemma RefreshKeepsSum(b: Book, m: Market, f: Leg -> int)
    requires forall l :: f(Remarked(l, m)) == f(l)
    ensures BookSum(RefreshMarks(b, m).positions, f) == BookSum(b.positions, f)
    ensures forall p :: 0 <= p < |b.positions| ==> LegSum(RefreshMarks(b, m).positions[p].legs, f) == LegSum(b.positions[p].legs, f)
  {
    hide Remarked;
    var b' := RefreshMarks(b, m);
    assert forall p, i :: HasLeg(b, p, i) ==> b'.positions[p].legs[i] == LegAt(b', p, i) && b.positions[p].legs[i] == LegAt(b, p, i);
    BookSumAgree(b'.positions, b.positions, f, f);
    forall p | 0 <= p < |b.positions| ensures LegSum(b'.positions[p].legs, f) == LegSum(b.positions[p].legs, f) {
      assert forall i :: 0 <= i < |b.positions[p].legs| ==> HasLeg(b, p, i);
      LegSumAgree(b'.positions[p].legs, b.positions[p].legs, f, f);
    }
  }

  lemma RefreshMarksBalanced(b: Book, m: Market)
    requires Balanced(b)
    ensures Balanced(RefreshMarks(b, m))
  {
    hide BookSum, LegSum, TradeSum;
    RefreshKeepsSum(b, m, LiveEntry);
    RefreshKeepsSum(b, m, SettledFlag);
    RefreshKeepsSum(b, m, LegCash);
    forall x ensures BookSum(RefreshMarks(b, m).positions, HeldQty(x)) == BookSum(b.positions, HeldQty(x)) {
      RefreshKeepsSum(b, m, HeldQty(x));
    }
    assert forall p :: CashIn(RefreshMarks(b, m), p) == CashIn(b, p);
  }
}
