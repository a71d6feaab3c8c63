/** Double entry: what the trade log says must equal what the legs and the running totals say. */
module Ledger {
  import opened Types
  import opened Books

  // ----- accounts -----------------------------------------------------------------------------

  function Cash(t: Trade): int {
    if t.side == Buy then -(t.price * t.qty) else t.price * t.qty
  }

  function CostOf(t: Trade): int { t.cost }

  function SignedQty(t: Trade): int {
    if t.side == Buy then t.qty else -t.qty
  }

  function TradedQty(instrument: int): Trade -> int {
    (t: Trade) => if t.instrument == instrument then SignedQty(t) else 0
  }

  function OrderTrade(t: Trade): int { if t.settled then 0 else 1 }

  function SettlementTrade(t: Trade): int { if t.settled then 1 else 0 }

  function IlliquidTrade(t: Trade): int { if t.illiquid then 1 else 0 }

  function OversizedTrade(t: Trade): int { if t.oversized then 1 else 0 }

  function LiveEntry(l: Leg): int {
    if l.Live() then l.entry * l.qty else 0
  }

  function HeldQty(instrument: int): Leg -> int {
    (l: Leg) => if l.Live() && l.instrument == instrument then l.qty else 0
  }

  function SettledFlag(l: Leg): int { if l.settled then 1 else 0 }

  /** What a leg has paid in and out so far. */
  function LegCash(l: Leg): int {
    if l.state.Closed? then l.exit * l.qty - l.entry * l.qty else -LiveEntry(l)
  }

  function PositionCash(p: int): Trade -> int {
    (t: Trade) => if t.position == p then Cash(t) else 0
  }

  function CashIn(b: Book, p: int): int {
    if 0 <= p < |b.positions| then LegSum(b.positions[p].legs, LegCash) else 0
  }

  /** The cash logged under each position is what its legs have paid in and out; none is logged elsewhere. */
  ghost predicate PositionsBalanced(b: Book) {
    forall p :: TradeSum(b.trades, PositionCash(p)) == CashIn(b, p)
  }

  /** Cash, costs and contract counts all agree between the trade log and the book. */
  ghost predicate Balanced(b: Book) {
    && TradeSum(b.trades, Cash) == b.realized - BookSum(b.positions, LiveEntry)
    && TradeSum(b.trades, CostOf) == b.costs
    && (forall x :: TradeSum(b.trades, TradedQty(x)) == BookSum(b.positions, HeldQty(x)))
    && b.submitted == TradeSum(b.trades, OrderTrade) + b.cancelled + |b.pending|
    && b.settledLegs == TradeSum(b.trades, SettlementTrade) == BookSum(b.positions, SettledFlag)
    && b.illiquid == TradeSum(b.trades, IlliquidTrade)
    && b.oversized == TradeSum(b.trades, OversizedTrade)
    && PositionsBalanced(b)
  }

  // ----- sums ---------------------------------------------------------------------------------

  lemma {:induction false} LegSumSet(legs: seq<Leg>, i: nat, l': Leg, f: Leg -> int)
    requires i < |legs|
    ensures LegSum(legs[i := l'], f) == LegSum(legs, f) - f(legs[i]) + f(l')
  {
    var n := |legs| - 1;
    if i == n {
      assert legs[i := l'][..n] == legs[..n];
    } else {
      assert legs[i := l'][..n] == legs[..n][i := l'];
      LegSumSet(legs[..n], i, l', f);
    }
  }

  lemma {:induction false} PositionSumSet(ps: seq<Position>, p: nat, pos: Position, f: Leg -> int)
    requires p < |ps|
    ensures BookSum(ps[p := pos], f) == BookSum(ps, f) - LegSum(ps[p].legs, f) + LegSum(pos.legs, f)
  {
    var n := |ps| - 1;
    if p == n {
      assert ps[p := pos][..n] == ps[..n];
    } else {
      assert ps[p := pos][..n] == ps[..n][p := pos];
      PositionSumSet(ps[..n], p, pos, f);
    }
  }

  lemma BookSumSet(b: Book, p: int, i: int, l': Leg, f: Leg -> int)
    requires HasLeg(b, p, i)
    ensures BookSum(SetLeg(b, p, i, l').positions, f) == BookSum(b.positions, f) - f(LegAt(b, p, i)) + f(l')
  {
    var pos := b.positions[p];
    LegSumSet(pos.legs, i, l', f);
    PositionSumSet(b.positions, p, pos.(legs := pos.legs[i := l']), f);
  }

  lemma TradeSumAppend(ts: seq<Trade>, t: Trade, g: Trade -> int)
    ensures TradeSum(ts + [t], g) == TradeSum(ts, g) + g(t)
  {
    assert (ts + [t])[..|ts + [t]| - 1] == ts;
  }

  /** Legs on which `f` vanishes, or two books whose legs agree under `f`. */
  lemma {:induction false} LegSumAgree(a: seq<Leg>, c: seq<Leg>, f: Leg -> int, g: Leg -> int)
    requires |a| == |c| && forall i :: 0 <= i < |a| ==> f(a[i]) == g(c[i])
    ensures LegSum(a, f) == LegSum(c, g)
  {
    if a != [] {
      LegSumAgree(a[..|a| - 1], c[..|c| - 1], f, g);
    }
  }

  lemma {:induction false} BookSumAgree(a: seq<Position>, c: seq<Position>, f: Leg -> int, g: Leg -> int)
    requires |a| == |c|
    requires forall p :: 0 <= p < |a| ==> |a[p].legs| == |c[p].legs|
    requires forall p, i :: 0 <= p < |a| && 0 <= i < |a[p].legs| ==> f(a[p].legs[i]) == g(c[p].legs[i])
    ensures BookSum(a, f) == BookSum(c, g)
  {
    if a != [] {
      var n := |a| - 1;
      BookSumAgree(a[..n], c[..n], f, g);
      LegSumAgree(a[n].legs, c[n].legs, f, g);
    }
  }

  lemma {:induction false} LegSumZero(a: seq<Leg>, f: Leg -> int)
    requires forall i :: 0 <= i < |a| ==> f(a[i]) == 0
    ensures LegSum(a, f) == 0
  {
    if a != [] {
      LegSumZero(a[..|a| - 1], f);
    }
  }

  lemma BookSumAppend(ps: seq<Position>, pos: Position, f: Leg -> int)
    ensures BookSum(ps + [pos], f) == BookSum(ps, f) + LegSum(pos.legs, f)
  {
    assert (ps + [pos])[..|ps + [pos]| - 1] == ps;
  }

  // ----- one leg changes ----------------------------------------------------------------------

  /** A leg moves without a trade: nothing it holds may change, and one order may leave the queue. */
  lemma QuietMove(b: Book, p: int, i: int, l': Leg, b': Book)
    requires HasLeg(b, p, i) && Balanced(b)
    requires var l := LegAt(b, p, i);
             l'.Live() == l.Live() && l'.settled == l.settled
             && (l.Live() ==> l'.instrument == l.instrument && l'.qty == l.qty && l'.entry == l.entry)
             && LegCash(l') == LegCash(l)
    requires b' == b.(positions := SetLeg(b, p, i, l').positions, pending := b'.pending, cancelled := b'.cancelled,
                      submitted := b'.submitted, rules := b'.rules)
    requires b'.submitted - b'.cancelled - |b'.pending| == b.submitted - b.cancelled - |b.pending|
    ensures Balanced(b')
  {
    BookSumSet(b, p, i, l', LiveEntry);
    BookSumSet(b, p, i, l', SettledFlag);
    forall x ensures TradeSum(b'.trades, TradedQty(x)) == BookSum(b'.positions, HeldQty(x)) {
      BookSumSet(b, p, i, l', HeldQty(x));
    }
    forall q ensures CashIn(b', q) == CashIn(b, q) {
      CashInSet(b, p, i, l', q);
    }
  }

  lemma CashInSet(b: Book, p: int, i: int, l': Leg, q: int)
    requires HasLeg(b, p, i)
    ensures CashIn(SetLeg(b, p, i, l'), q) == CashIn(b, q) + if q == p then LegCash(l') - LegCash(LegAt(b, p, i)) else 0
  {
    hide LegCash;
    LegSumSet(b.positions[p].legs, i, l', LegCash);
  }

  lemma PositionCashMove(b: Book, p: int, i: int, l': Leg, t: Trade, b': Book)
    requires HasLeg(b, p, i) && PositionsBalanced(b) && t.position == p && Cash(t) == LegCash(l') - LegCash(LegAt(b, p, i))
    requires b'.positions == SetLeg(b, p, i, l').positions && b'.trades == b.trades + [t]
    ensures PositionsBalanced(b')
  {
    hide LegCash, Cash;
    forall q ensures TradeSum(b'.trades, PositionCash(q)) == CashIn(b', q) {
      TradeSumAppend(b.trades, t, PositionCash(q));
      CashInSet(b, p, i, l', q);
    }
  }

  lemma SignedProduct(price: int, q: int)
    ensures q < 0 ==> price * Abs(q) == -(price * q)
    ensures q >= 0 ==> price * Abs(q) == price * q
  {
  }

  /** A leg opens or closes against exactly one trade of its whole quantity. */
  predicate Traded(l: Leg, l': Leg, t: Trade) {
    && l'.instrument == l.instrument && l'.qty == l.qty && !l.settled
    && t.instrument == l.instrument && t.qty == Abs(l.qty) && l'.settled == t.settled
    && (if l'.Live() then !l.Filled() && l'.entry == t.price && t.side == l.OpeningSide()
        else l.Live() && t.side == l.ClosingSide() && l'.state.Closed? && l'.entry == l.entry && l'.exit == t.price)
  }

  /** What the trade realizes. */
  function Realizes(l: Leg, l': Leg): int { if l'.Live() then 0 else l'.exit * l.qty - l.entry * l.qty }

  lemma TradedAmounts(l: Leg, l': Leg, t: Trade)
    requires Traded(l, l', t)
    ensures Cash(t) == LegCash(l') - LegCash(l) == Realizes(l, l') - LiveEntry(l') + LiveEntry(l)
    ensures SettledFlag(l') - SettledFlag(l) == SettlementTrade(t)
    ensures forall x :: TradedQty(x)(t) == HeldQty(x)(l') - HeldQty(x)(l)
  {
    SignedProduct(t.price, l'.qty);
  }

  lemma TradeMove(b: Book, p: int, i: int, l': Leg, t: Trade, b': Book)
    requires HasLeg(b, p, i) && Balanced(b) && Traded(LegAt(b, p, i), l', t) && t.position == p
    requires b'.realized == b.realized + Realizes(LegAt(b, p, i), l')
    requires b'.positions == SetLeg(b, p, i, l').positions && b'.trades == b.trades + [t]
    requires b'.costs == b.costs + t.cost
    requires b'.settledLegs == b.settledLegs + SettlementTrade(t)
    requires b'.illiquid == b.illiquid + IlliquidTrade(t) && b'.oversized == b.oversized + OversizedTrade(t)
    requires b'.submitted - b'.cancelled - |b'.pending| == b.submitted - b.cancelled - |b.pending| + OrderTrade(t)
    ensures Balanced(b')
  {
    hide Traded, Realizes, Cash, LegCash, LiveEntry, SettledFlag, SettlementTrade, OrderTrade, IlliquidTrade, OversizedTrade,
         HeldQty, TradedQty, PositionsBalanced, SetLeg, BookSum, TradeSum;
    TradedAmounts(LegAt(b, p, i), l', t);
    PositionCashMove(b, p, i, l', t, b');
    BookSumSet(b, p, i, l', LiveEntry);
    BookSumSet(b, p, i, l', SettledFlag);
    TradeSumAppend(b.trades, t, Cash);
    TradeSumAppend(b.trades, t, CostOf);
    TradeSumAppend(b.trades, t, OrderTrade);
    TradeSumAppend(b.trades, t, SettlementTrade);
    TradeSumAppend(b.trades, t, IlliquidTrade);
    TradeSumAppend(b.trades, t, OversizedTrade);
    forall x ensures TradeSum(b'.trades, TradedQty(x)) == BookSum(b'.positions, HeldQty(x)) {
      BookSumSet(b, p, i, l', HeldQty(x));
      TradeSumAppend(b.trades, t, TradedQty(x));
    }
  }

  // ----- equity -------------------------------------------------------------------------------

  /** What a live leg is worth at its exit-side mark. */
  function MarkedValue(m: Market): Leg -> int {
    (l: Leg) => if l.Live() then MarkFor(l, m) * l.qty else 0
  }

  ghost predicate EntriesNonNegative(b: Book) {
    forall p, i :: HasLeg(b, p, i) && LegAt(b, p, i).Live() ==> LegAt(b, p, i).entry >= 0
  }

  lemma {:induction false} LegSumDifference(legs: seq<Leg>, f: Leg -> int, g: Leg -> int, h: Leg -> int)
    requires forall i :: 0 <= i < |legs| ==> f(legs[i]) == g(legs[i]) - h(legs[i])
    ensures LegSum(legs, f) == LegSum(legs, g) - LegSum(legs, h)
  {
    if legs != [] {
      LegSumDifference(legs[..|legs| - 1], f, g, h);
    }
  }

  lemma {:induction false} BookSumDifference(ps: seq<Position>, f: Leg -> int, g: Leg -> int, h: Leg -> int)
    requires forall p, i :: 0 <= p < |ps| && 0 <= i < |ps[p].legs| ==> f(ps[p].legs[i]) == g(ps[p].legs[i]) - h(ps[p].legs[i])
    ensures BookSum(ps, f) == BookSum(ps, g) - BookSum(ps, h)
  {
    if ps != [] {
      var n := |ps| - 1;
      BookSumDifference(ps[..n], f, g, h);
      LegSumDifference(ps[n].legs, f, g, h);
    }
  }

  /** Equity is the cash the log paid in and out, less the costs it charged, plus what is held now. */
  lemma EquityIsCashPlusHoldings(b: Book, m: Market)
    requires Balanced(b) && EntriesNonNegative(b)
    ensures Equity(b, m) == TradeSum(b.trades, Cash) - TradeSum(b.trades, CostOf) + BookSum(b.positions, MarkedValue(m))
  {
    forall p, i | 0 <= p < |b.positions| && 0 <= i < |b.positions[p].legs|
      ensures OpenPnlIn(m)(b.positions[p].legs[i]) == MarkedValue(m)(b.positions[p].legs[i]) - LiveEntry(b.positions[p].legs[i])
    {
      assert HasLeg(b, p, i);
      var l := LegAt(b, p, i);
      assert l.Live() ==> MarkFor(l, m) >= 0;
    }
    BookSumDifference(b.positions, OpenPnlIn(m), MarkedValue(m), LiveEntry);
  }
}
