/** The portfolio's state as a value, and what each of its operations does to that value.
    `Portfolio.dfy` proves the imperative class against these functions; the other modules prove
    what they keep.  Loops of the source appear as folds over a growing prefix: `...Upto(.., k)`
    is the state after the first `k` iterations. */
module Books {
  import opened Types

  datatype LegState = PendingOpen | Open | PendingClose | Closed | Cancelled

  datatype Leg = Leg(instrument: int, qty: int, state: LegState,
                     entry: int, entryTs: int, exit: int, exitTs: int,
                     lastMark: int, lastMarkTs: int, settled: bool)
  {
    predicate Filled() { state.Open? || state.PendingClose? || state.Closed? }
    predicate Live() { state.Open? || state.PendingClose? }
    predicate Working() { state.PendingOpen? || state.PendingClose? }
    function ClosingSide(): Side { if qty < 0 then Buy else Sell }
    function OpeningSide(): Side { if qty < 0 then Sell else Buy }
  }

  datatype Position = Position(name: string, legs: seq<Leg>)

  datatype Order = Order(position: nat, leg: nat, instrument: int, side: Side, qty: int,
                         submittedAt: int, eligibleAt: int, closing: bool, fromRule: bool)

  datatype RuleKind = StopLoss(threshold: real) | TakeProfit(threshold: real) | ExitAt(deadline: int)

  datatype Rule = Rule(kind: RuleKind, position: nat, leg: Option<nat>, fired: bool)

  datatype Trade = Trade(signalTs: int, fillTs: int, position: nat, instrument: int, side: Side, qty: int,
                         price: int, cost: int, illiquid: bool, fromRule: bool, oversized: bool, settled: bool)

  datatype CostContext = CostContext(instrument: InstrumentSpec, price: int, qty: int, side: Side,
                                     exercise: bool, intrinsic: int)

  /** The injected fill model and cost policy. */
  datatype Policy = Policy(fill: (Quote, Side, int) -> Option<int>, illiquidRatio: real, cost: CostContext -> int)

  /** `submitted` is a history counter with no field behind it in the source: orders ever submitted. */
  datatype Book = Book(delay: int, positions: seq<Position>, pending: seq<Order>, rules: seq<Rule>,
                       trades: seq<Trade>, realized: int, costs: int,
                       illiquid: nat, oversized: nat, cancelled: nat, settledLegs: nat, rulesFired: nat,
                       submitted: nat)

  function EmptyBook(delay: int): Book {
    Book(delay, [], [], [], [], 0, 0, 0, 0, 0, 0, 0, 0)
  }

  // ----- addressing ---------------------------------------------------------------------------

  predicate HasLeg(b: Book, p: int, i: int) {
    0 <= p < |b.positions| && 0 <= i < |b.positions[p].legs|
  }

  function LegAt(b: Book, p: int, i: int): Leg
    requires HasLeg(b, p, i)
  {
    b.positions[p].legs[i]
  }

  predicate SameShape(b: Book, b': Book) {
    && |b'.positions| == |b.positions|
    && forall p :: 0 <= p < |b.positions| ==> |b'.positions[p].legs| == |b.positions[p].legs|
  }

  function SetLeg(b: Book, p: int, i: int, leg: Leg): (b': Book)
    requires HasLeg(b, p, i)
    ensures SameShape(b, b')
    ensures b' == b.(positions := b'.positions)
    ensures forall q, j :: HasLeg(b, q, j) ==> LegAt(b', q, j) == if q == p && j == i then leg else LegAt(b, q, j)
  {
    b.(positions := b.positions[p := b.positions[p].(legs := b.positions[p].legs[i := leg])])
  }

  predicate Addressed(b: Book, orders: seq<Order>) {
    forall k :: 0 <= k < |orders| ==> HasLeg(b, orders[k].position, orders[k].leg)
  }

  // ----- sums ---------------------------------------------------------------------------------

  function LegSum(legs: seq<Leg>, f: Leg -> int): int {
    if legs == [] then 0 else LegSum(legs[..|legs| - 1], f) + f(legs[|legs| - 1])
  }

  function BookSum(ps: seq<Position>, f: Leg -> int): int {
    if ps == [] then 0 else BookSum(ps[..|ps| - 1], f) + LegSum(ps[|ps| - 1].legs, f)
  }

  function TradeSum(ts: seq<Trade>, g: Trade -> int): int {
    if ts == [] then 0 else TradeSum(ts[..|ts| - 1], g) + g(ts[|ts| - 1])
  }

  // ----- positions ----------------------------------------------------------------------------

  predicate IsOpen(legs: seq<Leg>) {
    exists i :: 0 <= i < |legs| && (legs[i].Live() || legs[i].state.PendingOpen?)
  }

  /** Every leg that was not cancelled has filled, and there is at least one. */
  predicate Established(legs: seq<Leg>) {
    && (forall i :: 0 <= i < |legs| ==> legs[i].state.Cancelled? || legs[i].Filled())
    && (exists i :: 0 <= i < |legs| && legs[i].Filled())
  }

  predicate IsClosed(legs: seq<Leg>) {
    Established(legs) && !IsOpen(legs)
  }

  /** A position counts as closed when some leg traded and every leg is done; one whose legs were all
      cancelled never does. */
  lemma ClosedMeaning(legs: seq<Leg>)
    ensures IsClosed(legs) <==>
              (forall i :: 0 <= i < |legs| ==> legs[i].state.Closed? || legs[i].state.Cancelled?)
              && (exists i :: 0 <= i < |legs| && legs[i].state.Closed?)
  {
    if i :| 0 <= i < |legs| && legs[i].state.Closed? {
      assert legs[i].Filled();
    }
    if IsClosed(legs) {
      var i :| 0 <= i < |legs| && legs[i].Filled();
      assert !legs[i].Live();
    }
  }

  function EntryValue(l: Leg): int {
    if l.Filled() then l.entry * l.qty else 0
  }

  function EntryNotional(legs: seq<Leg>): int {
    LegSum(legs, EntryValue)
  }

  /** The price a leg would close at now: exit side of the quote, then the carried mark, then entry. */
  function MarkFor(l: Leg, m: Market): int {
    var q := m.Latest(l.instrument);
    if q.Some? && (if l.qty < 0 then q.value.ask else q.value.bid) > 0 then
      (if l.qty < 0 then q.value.ask else q.value.bid)
    else if q.Some? && l.qty > 0 then 0
    else if q.Some? && q.value.last > 0 then q.value.last
    else if l.lastMarkTs != 0 && l.lastMark >= 0 then l.lastMark
    else if l.Filled() then l.entry
    else -1
  }

  function LegPnl(l: Leg, m: Market): int {
    if !l.Filled() then 0
    else if l.state.Closed? then l.exit * l.qty - l.entry * l.qty
    else if MarkFor(l, m) < 0 then 0
    else MarkFor(l, m) * l.qty - l.entry * l.qty
  }

  function PnlIn(m: Market): Leg -> int {
    (l: Leg) => LegPnl(l, m)
  }

  function PositionPnl(legs: seq<Leg>, m: Market): int {
    LegSum(legs, PnlIn(m))
  }

  function PnlPct(legs: seq<Leg>, m: Market): real {
    if !Established(legs) || EntryNotional(legs) == 0 then 0.0
    else PositionPnl(legs, m) as real / Abs(EntryNotional(legs)) as real
  }

  function LegPnlPct(l: Leg, m: Market): real {
    if !l.Filled() || l.entry * l.qty == 0 then 0.0
    else LegPnl(l, m) as real / Abs(l.entry * l.qty) as real
  }

  function OpenPnlIn(m: Market): Leg -> int {
    (l: Leg) => if l.state.Closed? then 0 else LegPnl(l, m)
  }

  function Unrealized(b: Book, m: Market): int {
    BookSum(b.positions, OpenPnlIn(m))
  }

  function Equity(b: Book, m: Market): int {
    b.realized - b.costs + Unrealized(b, m)
  }

  // ----- submitting ---------------------------------------------------------------------------

  function NewLeg(instrument: int, qty: int): Leg {
    Leg(instrument, qty, PendingOpen, 0, 0, 0, 0, 0, 0, false)
  }

  predicate CanOpen(instruments: seq<int>, qty: int) {
    instruments != [] && qty > 0
  }

  /** Adds a position with one pending leg, and one opening order, per instrument. */
  function SubmitOpen(b: Book, name: string, instruments: seq<int>, side: Side, qty: int, now: int): Book
    requires CanOpen(instruments, qty)
  {
    var signed := if side == Sell then -qty else qty;
    var id := |b.positions|;
    b.(positions := b.positions + [Position(name, seq(|instruments|, i requires 0 <= i < |instruments| => NewLeg(instruments[i], signed)))],
       pending := b.pending + seq(|instruments|, i requires 0 <= i < |instruments| =>
                    Order(id, i, instruments[i], side, qty, now, now + b.delay, false, false)),
       submitted := b.submitted + |instruments|)
  }

  function ClosingOrder(b: Book, p: nat, i: nat, now: int, fromRule: bool): Order
    requires HasLeg(b, p, i)
  {
    var l := LegAt(b, p, i);
    Order(p, i, l.instrument, l.ClosingSide(), Abs(l.qty), now, now + b.delay, true, fromRule)
  }

  /** Queues a closing order for an open leg; does nothing for any other. */
  function SubmitCloseLeg(b: Book, p: nat, i: nat, now: int, fromRule: bool): (b': Book)
    requires HasLeg(b, p, i)
    ensures SameShape(b, b') && b'.rules == b.rules
    ensures Addressed(b, b.pending) ==> Addressed(b', b'.pending)
  {
    if LegAt(b, p, i).state != Open then b
    else
      SetLeg(b, p, i, LegAt(b, p, i).(state := PendingClose))
      .(pending := b.pending + [ClosingOrder(b, p, i, now, fromRule)], submitted := b.submitted + 1)
  }

  predicate OpensPosition(o: Order, p: nat) {
    o.position == p && !o.closing
  }

  /** First loop of `submit_close`: withdraws the position's opening orders, keeps the others. */
  function WithdrawUpto(b: Book, p: nat, k: nat): (r: (Book, seq<Order>))
    requires k <= |b.pending| && Addressed(b, b.pending)
    ensures SameShape(b, r.0) && r.0.rules == b.rules
    ensures r.0.pending == b.pending && Addressed(b, r.1)
  {
    if k == 0 then (b, [])
    else
      var (c, keep) := WithdrawUpto(b, p, k - 1);
      var o := b.pending[k - 1];
      if OpensPosition(o, p) then
        (SetLeg(c, o.position, o.leg, LegAt(c, o.position, o.leg).(state := Cancelled))
         .(cancelled := c.cancelled + 1), keep)
      else (c, keep + [o])
  }

  function WithdrawOpenings(b: Book, p: nat): (b': Book)
    requires Addressed(b, b.pending)
    ensures SameShape(b, b') && b'.rules == b.rules
    ensures Addressed(b', b'.pending)
  {
    var (c, keep) := WithdrawUpto(b, p, |b.pending|);
    c.(pending := keep)
  }

  /** Second loop of `submit_close`: closes the open legs in order. */
  function CloseLegsUpto(b: Book, p: nat, i: nat, now: int, fromRule: bool): (b': Book)
    requires p < |b.positions| && i <= |b.positions[p].legs|
    ensures SameShape(b, b') && b'.rules == b.rules
    ensures Addressed(b, b.pending) ==> Addressed(b', b'.pending)
    decreases i
  {
    if i == 0 then b else SubmitCloseLeg(CloseLegsUpto(b, p, i - 1, now, fromRule), p, i - 1, now, fromRule)
  }

  function SubmitClose(b: Book, p: nat, now: int, fromRule: bool): (b': Book)
    requires p < |b.positions| && Addressed(b, b.pending)
    ensures SameShape(b, b') && b'.rules == b.rules
    ensures Addressed(b', b'.pending)
  {
    CloseLegsUpto(WithdrawOpenings(b, p), p, |b.positions[p].legs|, now, fromRule)
  }

  function AttachRule(b: Book, kind: RuleKind, p: nat, leg: Option<nat>): Book {
    b.(rules := b.rules + [Rule(kind, p, leg, false)])
  }

  // ----- filling ------------------------------------------------------------------------------

  /** The price a pending order trades at now, if it trades now at all. */
  function FillPrice(pol: Policy, m: Market, o: Order): Option<int> {
    if m.now < o.eligibleAt then None
    else match m.Latest(o.instrument)
      case None => None
      case Some(q) => pol.fill(q, o.side, o.qty)
  }

  function FillCost(pol: Policy, m: Market, o: Order, price: int): int {
    pol.cost(CostContext(SpecOf(m.registry, o.instrument), price, o.qty, o.side, false, 0))
  }

  predicate IsIlliquid(pol: Policy, q: Quote) {
    q.Mid() > 0 && q.Spread() as real / q.Mid() as real > pol.illiquidRatio
  }

  predicate IsOversized(q: Quote, o: Order) {
    var displayed := if o.side == Buy then q.askQty else q.bidQty;
    displayed > 0 && o.qty > displayed
  }

  function FilledLeg(l: Leg, closing: bool, price: int, now: int): Leg {
    if closing then l.(exit := price, exitTs := now, state := Closed)
    else l.(entry := price, entryTs := now, state := Open)
  }

  /** One order executes. */
  function Fill(b: Book, pol: Policy, m: Market, o: Order): (b': Book)
    requires HasLeg(b, o.position, o.leg)
    requires FillPrice(pol, m, o).Some?
    ensures SameShape(b, b')
  {
    var price := FillPrice(pol, m, o).value;
    var q := m.Latest(o.instrument).value;
    var l := FilledLeg(LegAt(b, o.position, o.leg), o.closing, price, m.now);
    var cost := FillCost(pol, m, o, price);
    var ill, over := IsIlliquid(pol, q), IsOversized(q, o);
    SetLeg(b, o.position, o.leg, l)
    .(realized := b.realized + if o.closing then l.exit * l.qty - l.entry * l.qty else 0,
      costs := b.costs + cost,
      illiquid := b.illiquid + (if ill then 1 else 0),
      oversized := b.oversized + (if over then 1 else 0),
      trades := b.trades + [Trade(o.submittedAt, m.now, o.position, o.instrument, o.side, o.qty,
                                  price, cost, ill, o.fromRule, over, false)])
  }

  /** After the first `k` pending orders: the book, and the orders still resting. */
  function ProcessUpto(b: Book, pol: Policy, m: Market, k: nat): (r: (Book, seq<Order>))
    requires k <= |b.pending| && Addressed(b, b.pending)
    ensures SameShape(b, r.0)
    ensures r.0.pending == b.pending && r.0.rules == b.rules
  {
    if k == 0 then (b, [])
    else
      var (c, still) := ProcessUpto(b, pol, m, k - 1);
      var o := b.pending[k - 1];
      if FillPrice(pol, m, o).Some? then (Fill(c, pol, m, o), still) else (c, still + [o])
  }

  function ProcessPending(b: Book, pol: Policy, m: Market): (b': Book)
    requires Addressed(b, b.pending)
    ensures SameShape(b, b')
  {
    var (c, still) := ProcessUpto(b, pol, m, |b.pending|);
    c.(pending := still)
  }

  // ----- marks --------------------------------------------------------------------------------

  function Remarked(l: Leg, m: Market): Leg {
    if !l.Live() || m.Latest(l.instrument).None? then l
    else
      var q := m.Latest(l.instrument).value;
      var side := if l.qty < 0 then q.ask else q.bid;
      if side > 0 then l.(lastMark := side, lastMarkTs := m.now)
      else if l.qty > 0 then l.(lastMark := 0, lastMarkTs := m.now)
      else if q.last > 0 then l.(lastMark := q.last, lastMarkTs := m.now)
      else l
  }

  function RemarkedLegs(legs: seq<Leg>, m: Market): (r: seq<Leg>)
    ensures |r| == |legs| && forall i :: 0 <= i < |legs| ==> r[i] == Remarked(legs[i], m)
  {
    seq(|legs|, i requires 0 <= i < |legs| => Remarked(legs[i], m))
  }

  function RefreshMarks(b: Book, m: Market): (b': Book)
    ensures SameShape(b, b') && b' == b.(positions := b'.positions)
    ensures forall p, i :: HasLeg(b, p, i) ==> LegAt(b', p, i) == Remarked(LegAt(b, p, i), m)
  {
    b.(positions := seq(|b.positions|, p requires 0 <= p < |b.positions| =>
                        b.positions[p].(legs := RemarkedLegs(b.positions[p].legs, m))))
  }

  // ----- settlement ---------------------------------------------------------------------------

  /** Price from a real number of currency units: round half away from zero. */
  function PriceOfReal(v: real): int {
    if v >= 0.0 then (v * 100.0 + 0.5).Floor else -((-v * 100.0 + 0.5).Floor)
  }

  function Intrinsic(spec: InstrumentSpec, level: real): (v: real)
    ensures v >= 0.0
  {
    var strike := spec.strike as real / 100.0;
    var d := if spec.right == Call then level - strike else strike - level;
    if d > 0.0 then d else 0.0
  }

  predicate ExpiresOn(m: Market, instrument: int, expiry: int) {
    var spec := SpecOf(m.registry, instrument);
    spec.kind == OptionKind && spec.expiry == expiry
  }

  function SettlePrice(m: Market, instrument: int, level: real): int {
    PriceOfReal(Intrinsic(SpecOf(m.registry, instrument), level))
  }

  function SettleCost(pol: Policy, m: Market, l: Leg, level: real): int {
    var spec := SpecOf(m.registry, l.instrument);
    var px := SettlePrice(m, l.instrument, level);
    if l.qty > 0 && Intrinsic(spec, level) > 0.0 then pol.cost(CostContext(spec, px, l.qty, Sell, true, px)) else 0
  }

  predicate Settles(l: Leg, m: Market, expiry: int) {
    l.Live() && ExpiresOn(m, l.instrument, expiry)
  }

  function SettledLeg(l: Leg, m: Market, level: real, when: int): Leg {
    l.(exit := SettlePrice(m, l.instrument, level), exitTs := when, state := Closed, settled := true)
  }

  /** Cash-settles one leg if it is live and expiring. */
  function SettleLeg(b: Book, pol: Policy, m: Market, expiry: int, level: real, when: int, p: nat, i: nat): (b': Book)
    requires HasLeg(b, p, i)
    ensures SameShape(b, b')
  {
    var l := LegAt(b, p, i);
    if !Settles(l, m, expiry) then b
    else
      var px, cost := SettlePrice(m, l.instrument, level), SettleCost(pol, m, l, level);
      SetLeg(b, p, i, SettledLeg(l, m, level, when))
      .(realized := b.realized + (px * l.qty - l.entry * l.qty),
        costs := b.costs + cost,
        settledLegs := b.settledLegs + 1,
        trades := b.trades + [Trade(when, when, p, l.instrument, l.ClosingSide(), Abs(l.qty),
                                    px, cost, false, false, false, true)])
  }

  /** Positions before `p`, and the first `i` legs of position `p`, have been visited. */
  function SettleUpto(b: Book, pol: Policy, m: Market, expiry: int, level: real, when: int, p: nat, i: nat): (b': Book)
    requires p <= |b.positions| && (if p < |b.positions| then i <= |b.positions[p].legs| else i == 0)
    ensures SameShape(b, b')
    ensures b'.pending == b.pending
    decreases p, i
  {
    if i > 0 then SettleLeg(SettleUpto(b, pol, m, expiry, level, when, p, i - 1), pol, m, expiry, level, when, p, i - 1)
    else if p > 0 then SettleUpto(b, pol, m, expiry, level, when, p - 1, |b.positions[p - 1].legs|)
    else b
  }

  lemma {:induction false} SettleUptoRules(b: Book, pol: Policy, m: Market, expiry: int, level: real, when: int, p: nat, i: nat)
    requires p <= |b.positions| && (if p < |b.positions| then i <= |b.positions[p].legs| else i == 0)
    ensures SettleUpto(b, pol, m, expiry, level, when, p, i).rules == b.rules
    decreases p, i
  {
    if i > 0 {
      SettleUptoRules(b, pol, m, expiry, level, when, p, i - 1);
    } else if p > 0 {
      SettleUptoRules(b, pol, m, expiry, level, when, p - 1, |b.positions[p - 1].legs|);
    }
  }

  /** Drops the orders working on an expired series, cancelling legs that never opened. */
  function DropUpto(b: Book, m: Market, expiry: int, k: nat): (r: (Book, seq<Order>))
    requires k <= |b.pending| && Addressed(b, b.pending)
    ensures SameShape(b, r.0)
    ensures r.0.pending == b.pending
  {
    if k == 0 then (b, [])
    else
      var (c, keep) := DropUpto(b, m, expiry, k - 1);
      var o := b.pending[k - 1];
      if !ExpiresOn(m, o.instrument, expiry) then (c, keep + [o])
      else
        var l := LegAt(c, o.position, o.leg);
        var c' := if !o.closing && l.state.PendingOpen? then SetLeg(c, o.position, o.leg, l.(state := Cancelled)) else c;
        (c'.(cancelled := c.cancelled + 1), keep)
  }

  function DropExpired(b: Book, m: Market, expiry: int): (b': Book)
    requires Addressed(b, b.pending)
    ensures SameShape(b, b')
  {
    var (c, keep) := DropUpto(b, m, expiry, |b.pending|);
    c.(pending := keep)
  }

  function SettleExpiry(b: Book, pol: Policy, m: Market, expiry: int, level: real, when: int): (b': Book)
    requires Addressed(b, b.pending)
    ensures SameShape(b, b')
  {
    DropExpired(SettleUpto(b, pol, m, expiry, level, when, |b.positions|, 0), m, expiry)
  }

  // ----- end of day ---------------------------------------------------------------------------

  /** Undoes the orders still working: an abandoned exit reopens its leg and is remembered. */
  function AbandonUpto(b: Book, k: nat): (r: (Book, set<nat>))
    requires k <= |b.pending| && Addressed(b, b.pending)
    ensures SameShape(b, r.0)
    ensures r.0.pending == b.pending && r.0.rules == b.rules
  {
    if k == 0 then (b, {})
    else
      var (c, exits) := AbandonUpto(b, k - 1);
      var o := b.pending[k - 1];
      var l := LegAt(c, o.position, o.leg);
      if o.closing then
        if l.state.PendingClose? then (SetLeg(c, o.position, o.leg, l.(state := Open)), exits + {o.position})
        else (c, exits)
      else if l.state.PendingOpen? then (SetLeg(c, o.position, o.leg, l.(state := Cancelled)), exits)
      else (c, exits)
  }

  predicate RulesAddressed(b: Book) {
    forall r :: 0 <= r < |b.rules| ==> b.rules[r].position < |b.positions|
  }

  function Rearmed(b: Book, exits: set<nat>, rule: Rule): Rule
    requires rule.position < |b.positions|
  {
    if rule.fired && rule.position in exits && IsOpen(b.positions[rule.position].legs) then rule.(fired := false) else rule
  }

  function RearmRules(b: Book, exits: set<nat>): (rules: seq<Rule>)
    requires RulesAddressed(b)
    ensures |rules| == |b.rules|
    ensures forall r :: 0 <= r < |b.rules| ==> rules[r] == Rearmed(b, exits, b.rules[r])
  {
    seq(|b.rules|, r requires 0 <= r < |b.rules| => Rearmed(b, exits, b.rules[r]))
  }

  function CancelWorking(b: Book): (b': Book)
    requires Addressed(b, b.pending) && RulesAddressed(b)
    ensures SameShape(b, b')
  {
    var (c, exits) := AbandonUpto(b, |b.pending|);
    c.(pending := [], cancelled := c.cancelled + |b.pending|, rules := RearmRules(c, exits))
  }

  // ----- risk rules ---------------------------------------------------------------------------

  /** The rule looks at a leg, or a position, that is ready to be judged. */
  predicate Armed(legs: seq<Leg>, rule: Rule) {
    match rule.leg
    case Some(i) => i < |legs| && legs[i].state.Open?
    case None => Established(legs)
  }

  function MeasuredPnl(legs: seq<Leg>, rule: Rule, m: Market): real {
    match rule.leg
    case Some(i) => if i < |legs| then LegPnlPct(legs[i], m) else 0.0
    case None => PnlPct(legs, m)
  }

  predicate Triggers(legs: seq<Leg>, rule: Rule, m: Market) {
    match rule.kind
    case StopLoss(t) => MeasuredPnl(legs, rule, m) <= -t
    case TakeProfit(t) => MeasuredPnl(legs, rule, m) >= t
    case ExitAt(deadline) => m.now >= deadline
  }

  /** Nothing left for the rule to act on: its position is not open, or it names no leg of it. */
  predicate Moot(legs: seq<Leg>, rule: Rule) {
    !IsOpen(legs) || (rule.leg.Some? && rule.leg.value >= |legs|)
  }

  function Spend(b: Book, r: nat): (b': Book)
    requires r < |b.rules|
  {
    b.(rules := b.rules[r := b.rules[r].(fired := true)])
  }

  function FireRule(b: Book, m: Market, r: nat): (b': Book)
    requires r < |b.rules| && RulesAddressed(b) && Addressed(b, b.pending)
    ensures SameShape(b, b') && |b'.rules| == |b.rules|
    ensures RulesAddressed(b') && Addressed(b', b'.pending)
  {
    var rule := b.rules[r];
    var c := Spend(b, r).(rulesFired := b.rulesFired + 1);
    match rule.leg
    case Some(i) => if HasLeg(b, rule.position, i) then SubmitCloseLeg(c, rule.position, i, m.now, true) else c
    case None => SubmitClose(c, rule.position, m.now, true)
  }

  function RunRule(b: Book, m: Market, r: nat): (b': Book)
    requires r < |b.rules| && RulesAddressed(b) && Addressed(b, b.pending)
    ensures SameShape(b, b') && |b'.rules| == |b.rules|
    ensures RulesAddressed(b') && Addressed(b', b'.pending)
  {
    var rule := b.rules[r];
    var legs := b.positions[rule.position].legs;
    if rule.fired then b
    else if Moot(legs, rule) then Spend(b, r)
    else if Armed(legs, rule) && Triggers(legs, rule, m) then FireRule(b, m, r)
    else b
  }

  /** After the first `r` rules have been looked at. */
  function RulesUpto(b: Book, m: Market, r: nat): (b': Book)
    requires r <= |b.rules| && RulesAddressed(b) && Addressed(b, b.pending)
    ensures SameShape(b, b') && |b'.rules| == |b.rules|
    ensures RulesAddressed(b') && Addressed(b', b'.pending)
  {
    if r == 0 then b else RunRule(RulesUpto(b, m, r - 1), m, r - 1)
  }

  function ProcessRiskRules(b: Book, m: Market): (b': Book)
    requires RulesAddressed(b) && Addressed(b, b.pending)
    ensures SameShape(b, b')
    ensures RulesAddressed(b') && Addressed(b', b'.pending)
  {
    RulesUpto(b, m, |b.rules|)
  }
}
