/** What holds at every point of every replay. */
module RunProperties {
  import opened Types
  import opened Books
  import opened Matching
  import opened Ledger
  import opened Soundness
  import opened Effects
  import opened RiskRules
  import opened Sessions
  import opened Strategies
  import opened EventLoop

  /** No order was submitted after `t`. */
  ghost predicate OrdersBy(b: Book, t: int) {
    forall k :: 0 <= k < |b.pending| ==> b.pending[k].submittedAt <= t
  }

  /** Every order trade came strictly after its decision, and no trade is later than `t`. */
  ghost predicate TradesBy(b: Book, t: int) {
    forall k :: 0 <= k < |b.trades| ==> b.trades[k].fillTs <= t && (b.trades[k].settled || b.trades[k].fillTs > b.trades[k].signalTs)
  }

  /** The trade's price, cost and flags follow from the quote that stood when it filled. */
  predicate Priced(registry: seq<InstrumentSpec>, pol: Policy, m: Market, t: Trade) {
    match m.Latest(t.instrument)
    case None => false
    case Some(q) =>
      && pol.fill(q, t.side, t.qty) == Some(t.price)
      && t.cost == pol.cost(CostContext(SpecOf(registry, t.instrument), t.price, t.qty, t.side, false, 0))
      && t.illiquid == IsIlliquid(pol, q)
  }

  /** The trades logged since the session began, when `base` had been logged. */
  ghost predicate Honest(b: Book, s: Session, pol: Policy, base: nat) {
    forall k :: base <= k < |b.trades| ==> !b.trades[k].settled && Priced(s.registry, pol, AsOf(s, b.trades[k].fillTs), b.trades[k])
  }

  /** Every leg names an instrument of the registry. */
  ghost predicate Registered(b: Book, n: nat) {
    forall p, i :: HasLeg(b, p, i) ==> 0 <= LegAt(b, p, i).instrument < n
  }

  ghost predicate Good(b: Book, s: Session, cfg: Config, t: int, base: nat) {
    && Sound(b) && b.delay == cfg.delay && OrdersBy(b, t) && TradesBy(b, t)
    && Honest(b, s, cfg.pol, base) && Registered(b, |s.registry|)
  }

  // ----- orders an operation can leave behind -------------------------------------------------

  /** Every order is an old one or was submitted now. */
  ghost predicate OnlyNew(b: Book, b': Book, now: int) {
    forall k :: 0 <= k < |b'.pending| ==> b'.pending[k] in b.pending || b'.pending[k].submittedAt == now
  }

  lemma {:induction false} KeptSubset(orders: seq<Order>, p: nat)
    ensures forall o :: o in Kept(orders, p) ==> o in orders
  {
    if orders != [] {
      KeptSubset(orders[..|orders| - 1], p);
    }
  }

  lemma {:induction false} RestingSubset(orders: seq<Order>, pol: Policy, m: Market)
    ensures forall o :: o in Resting(orders, pol, m) ==> o in orders
  {
    if orders != [] {
      RestingSubset(orders[..|orders| - 1], pol, m);
    }
  }

  lemma {:induction false} ExitsNew(b: Book, p: nat, n: nat, now: int, fromRule: bool)
    requires p < |b.positions| && n <= |b.positions[p].legs|
    ensures forall o :: o in Exits(b, p, n, now, fromRule) ==> o.submittedAt == now
  {
    if n > 0 {
      ExitsNew(b, p, n - 1, now, fromRule);
    }
  }

  lemma SubmitCloseNew(b: Book, p: nat, now: int, fromRule: bool)
    requires Matched(b) && p < |b.positions|
    ensures OnlyNew(b, SubmitClose(b, p, now, fromRule), now) && SubmitClose(b, p, now, fromRule).trades == b.trades
  {
    var b' := SubmitClose(b, p, now, fromRule);
    SubmitCloseEffect(b, p, now, fromRule);
    KeptSubset(b.pending, p);
    ExitsNew(b, p, |b.positions[p].legs|, now, fromRule);
    forall k | 0 <= k < |b'.pending| ensures b'.pending[k] in b.pending || b'.pending[k].submittedAt == now {
      assert b'.pending[k] in Kept(b.pending, p) + Exits(b, p, |b.positions[p].legs|, now, fromRule);
    }
  }

  lemma OrdersByStep(b: Book, b': Book, t: int, now: int)
    requires OrdersBy(b, t) && OnlyNew(b, b', now) && t <= now
    ensures OrdersBy(b', now)
  {
    forall k | 0 <= k < |b'.pending| ensures b'.pending[k].submittedAt <= now {
      if b'.pending[k] in b.pending {
        var j :| 0 <= j < |b.pending| && b.pending[j] == b'.pending[k];
      }
    }
  }

  lemma RegisteredStep(b: Book, b': Book, n: nat, reopening: bool)
    requires Registered(b, n) && LegsStep(b, b', reopening) && |b'.positions| == |b.positions|
    ensures Registered(b', n)
  {
    forall p, i | HasLeg(b', p, i) ensures 0 <= LegAt(b', p, i).instrument < n {
      assert HasLeg(b, p, i) && LegStep(LegAt(b, p, i), LegAt(b', p, i), reopening);
    }
  }

  // ----- strategy actions ---------------------------------------------------------------------

  /** Moves that log no trade and submit orders only now keep everything in place. */
  lemma QuietGood(b: Book, b': Book, s: Session, cfg: Config, t: int, now: int, base: nat)
    requires Good(b, s, cfg, t, base) && t <= now && Sound(b') && Evolves(b, b', false) && OnlyNew(b, b', now)
    requires b'.trades == b.trades && |b'.positions| == |b.positions|
    ensures Good(b', s, cfg, now, base)
  {
    OrdersByStep(b, b', t, now);
    RegisteredStep(b, b', |s.registry|, false);
  }

  lemma TradeLotsGood(b: Book, s: Session, cfg: Config, a: Action, now: int, base: nat)
    requires Ready(b) && Good(b, s, cfg, now, base) && a.TradeLots?
    ensures var b' := Apply(b, s.registry, a, now).0;
            Good(b', s, cfg, now, base) && b'.trades == b.trades && Evolves(b, b', false)
  {
    EvolvesReflexive(b, false);
    if a.legs != [] && Contracts(s.registry, a.legs, a.lots).Some? {
      var qty := Contracts(s.registry, a.legs, a.lots).value;
      SubmitOpenSound(b, a.name, a.legs, a.side, qty, now);
      OpenedGood(b, s, cfg, a.name, a.legs, a.side, qty, now);
    }
  }

  /** An action logs no trade, and orders at most at its own time. */
  lemma ApplyGood(b: Book, s: Session, cfg: Config, a: Action, now: int, base: nat)
    requires Ready(b) && Good(b, s, cfg, now, base)
    ensures var b' := Apply(b, s.registry, a, now).0;
            Good(b', s, cfg, now, base) && b'.trades == b.trades && Evolves(b, b', false)
  {
    var b' := Apply(b, s.registry, a, now).0;
    if a.TradeLots? {
      TradeLotsGood(b, s, cfg, a, now, base);
    } else {
      CommandGood(b, s, cfg, a, now, base);
    }
  }

  lemma CommandGood(b: Book, s: Session, cfg: Config, a: Action, now: int, base: nat)
    requires Ready(b) && Good(b, s, cfg, now, base) && !a.TradeLots?
    ensures var b' := Apply(b, s.registry, a, now).0;
            Good(b', s, cfg, now, base) && b'.trades == b.trades && Evolves(b, b', false)
  {
    hide Apply, Sound, Evolves, OnlyNew, Honest, TradesBy, OrdersBy, Registered;
    CommandEffect(b, s.registry, a, now);
    QuietGood(b, Apply(b, s.registry, a, now).0, s, cfg, now, now, base);
  }

  /** What a command does: it keeps the book sound, logs no trade and orders only now. */
  ghost predicate Command(b: Book, b': Book, now: int) {
    Sound(b') && Evolves(b, b', false) && OnlyNew(b, b', now) && b'.trades == b.trades && |b'.positions| == |b.positions|
  }

  lemma NothingCommanded(b: Book, now: int)
    requires Sound(b)
    ensures Command(b, b, now)
  {
    hide Sound;
    EvolvesReflexive(b, false);
  }

  lemma CloseCommand(b: Book, p: nat, now: int)
    requires Sound(b) && Addressed(b, b.pending) && p < |b.positions|
    ensures Command(b, SubmitClose(b, p, now, false), now)
  {
    hide Consistent, SpentRules, Evolves, OnlyNew, SubmitClose, MatchedBut;
    SoundIsMatched(b);
    SubmitCloseSound(b, p, now, false);
    SubmitCloseNew(b, p, now, false);
  }

  lemma SoundIsMatched(b: Book)
    requires Sound(b)
    ensures Matched(b)
  {
  }

  lemma CloseLegCommand(b: Book, p: nat, i: nat, now: int)
    requires Sound(b) && HasLeg(b, p, i)
    ensures Command(b, SubmitCloseLeg(b, p, i, now, false), now)
  {
    hide Sound, Evolves;
    SubmitCloseLegSound(b, p, i, now, false);
  }

  lemma CommandEffect(b: Book, registry: seq<InstrumentSpec>, a: Action, now: int)
    requires Ready(b) && Sound(b) && !a.TradeLots?
    ensures Command(b, Apply(b, registry, a, now).0, now)
  {
    hide Sound, Evolves, OnlyNew, SubmitClose, SubmitCloseLeg;
    NothingCommanded(b, now);
    match a
    case ClosePosition(p) =>
      if 0 <= p < |b.positions| { CloseCommand(b, p, now); }
    case CloseLeg(p, i) =>
      if HasLeg(b, p, i) { CloseLegCommand(b, p, i, now); }
    case Attach(kind, p, leg) =>
      if 0 <= p < |b.positions| { AttachCommand(b, kind, p, leg, now); }
  }

  lemma AttachCommand(b: Book, kind: RuleKind, p: nat, leg: Option<nat>, now: int)
    requires Sound(b) && p < |b.positions|
    ensures Command(b, AttachRule(b, kind, p, leg), now)
  {
    hide Sound, Evolves;
    AttachRuleSound(b, kind, p, leg);
  }

  lemma OpenedGood(b: Book, s: Session, cfg: Config, name: string, legs: seq<int>, side: Side, qty: int, now: int)
    requires CanOpen(legs, qty) && Known(s.registry, legs) && Registered(b, |s.registry|) && OrdersBy(b, now)
    ensures var b' := SubmitOpen(b, name, legs, side, qty, now); Registered(b', |s.registry|) && OrdersBy(b', now)
  {
    var b' := SubmitOpen(b, name, legs, side, qty, now);
    forall p, i | HasLeg(b', p, i) ensures 0 <= LegAt(b', p, i).instrument < |s.registry| {
      if p < |b.positions| { assert HasLeg(b, p, i) && LegAt(b', p, i) == LegAt(b, p, i); }
    }
  }

  // ----- the engine's own work ----------------------------------------------------------------

  lemma {:induction false} ExecutedFrom(orders: seq<Order>, pol: Policy, m: Market, k: nat)
    requires k < |Executed(orders, pol, m)|
    ensures exists j :: 0 <= j < |orders| && FillPrice(pol, m, orders[j]).Some? && Executed(orders, pol, m)[k] == TradeOf(orders[j], pol, m)
  {
    var n := |orders| - 1;
    var before := Executed(orders[..n], pol, m);
    if k < |before| {
      ExecutedFrom(orders[..n], pol, m, k);
      var j :| 0 <= j < n && FillPrice(pol, m, orders[..n][j]).Some? && before[k] == TradeOf(orders[..n][j], pol, m);
      assert orders[j] == orders[..n][j];
    } else {
      assert FillPrice(pol, m, orders[n]).Some?;
    }
  }

  lemma ExecutedTrade(orders: seq<Order>, s: Session, cfg: Config, t: int, c: int, k: nat)
    requires k < |Executed(orders, cfg.pol, AsOf(s, t))| && c < t
    requires forall j :: 0 <= j < |orders| ==> orders[j].submittedAt <= c
    ensures var tr := Executed(orders, cfg.pol, AsOf(s, t))[k];
            tr.fillTs == t > tr.signalTs && !tr.settled && Priced(s.registry, cfg.pol, AsOf(s, t), tr)
  {
    ExecutedFrom(orders, cfg.pol, AsOf(s, t), k);
  }

  /** Some trades were added, all of them at `t`. */
  ghost predicate TradesAdded(b: Book, b': Book, t: int) {
    b.trades <= b'.trades && forall k :: |b.trades| <= k < |b'.trades| ==> b'.trades[k].fillTs == t
  }

  lemma FilledTrades(b: Book, s: Session, cfg: Config, c: int, t: int, base: nat)
    requires Ready(b) && Matched(b) && OrdersBy(b, c) && TradesBy(b, c) && Honest(b, s, cfg.pol, base) && c <= t && (c < t || b.pending == [])
    ensures var b' := Filled(b, cfg, AsOf(s, t));
            TradesAdded(b, b', t) && TradesBy(b', t) && Honest(b', s, cfg.pol, base) && OrdersBy(b', t)
  {
    var m, b' := AsOf(s, t), Filled(b, cfg, AsOf(s, t));
    ProcessPendingEffect(b, cfg.pol, m);
    RestingSubset(b.pending, cfg.pol, m);
    forall k | |b.trades| <= k < |b'.trades|
      ensures var tr := b'.trades[k]; tr.fillTs == t > tr.signalTs && !tr.settled && Priced(s.registry, cfg.pol, m, tr)
    {
      assert b.pending != [];
      ExecutedTrade(b.pending, s, cfg, t, c, k - |b.trades|);
    }
    OrdersByStep(b, b', c, t);
  }

  lemma FilledGood(b: Book, s: Session, cfg: Config, c: int, t: int, base: nat)
    requires Ready(b) && Good(b, s, cfg, c, base) && c <= t && (c < t || b.pending == [])
    ensures var b' := Filled(b, cfg, AsOf(s, t)); Good(b', s, cfg, t, base) && TradesAdded(b, b', t) && Evolves(b, b', false)
  {
    FilledTrades(b, s, cfg, c, t, base);
    ProcessPendingSound(b, cfg.pol, AsOf(s, t));
    RegisteredStep(b, Filled(b, cfg, AsOf(s, t)), |s.registry|, false);
  }

  lemma FireRuleNew(b: Book, m: Market, r: nat)
    requires Sound(b) && r < |b.rules| && RulesAddressed(b) && Addressed(b, b.pending)
    ensures var b' := FireRule(b, m, r); OnlyNew(b, b', m.now) && b'.trades == b.trades
  {
    hide SubmitClose, MatchedBut, Balanced, Sane;
    var rule := b.rules[r];
    if rule.leg.None? {
      var c := Spend(b, r).(rulesFired := b.rulesFired + 1);
      SpendConsistent(b, r, b.rulesFired + 1);
      SubmitCloseNew(c, rule.position, m.now, true);
    }
  }

  lemma RunRuleNew(b: Book, m: Market, r: nat)
    requires Sound(b) && r < |b.rules| && RulesAddressed(b) && Addressed(b, b.pending)
    ensures var b' := RunRule(b, m, r); OnlyNew(b, b', m.now) && b'.trades == b.trades
  {
    hide FireRule, Moot, Armed, Triggers, Sound;
    FireRuleNew(b, m, r);
  }

  lemma {:induction false} RulesUptoNew(b: Book, m: Market, r: nat)
    requires RulesAddressed(b) && Addressed(b, b.pending) && Sound(b) && r <= |b.rules| && OrdersBy(b, m.now)
    ensures var c := RulesUpto(b, m, r); OrdersBy(c, m.now) && c.trades == b.trades
  {
    hide Sound, RunRule, OrdersBy;
    if r > 0 {
      RulesUptoNew(b, m, r - 1);
      RulesUptoSound(b, m, r - 1);
      var c := RulesUpto(b, m, r - 1);
      RunRuleNew(c, m, r - 1);
      OrdersByStep(c, RulesUpto(b, m, r), m.now, m.now);
    }
  }

  lemma RulesGood(b: Book, s: Session, cfg: Config, t: int, base: nat)
    requires Ready(b) && Good(b, s, cfg, t, base)
    ensures var b' := ProcessRiskRules(b, AsOf(s, t)); Good(b', s, cfg, t, base) && b'.trades == b.trades && Evolves(b, b', false)
  {
    ProcessRiskRulesSound(b, AsOf(s, t));
    RulesUptoNew(b, AsOf(s, t), |b.rules|);
    RegisteredStep(b, ProcessRiskRules(b, AsOf(s, t)), |s.registry|, false);
  }

  lemma MarkedGood(b: Book, s: Session, cfg: Config, t: int, base: nat)
    requires Ready(b) && Good(b, s, cfg, t, base)
    ensures var b' := Marked(b, cfg, AsOf(s, t)); Good(b', s, cfg, t, base) && b'.trades == b.trades && Evolves(b, b', false)
  {
    EvolvesReflexive(b, false);
    RefreshMarksSound(b, AsOf(s, t));
    RegisteredStep(b, Marked(b, cfg, AsOf(s, t)), |s.registry|, false);
  }

  lemma {:induction false} ResumeGood<S>(st: Strategy<S>, s: Session, cfg: Config, b: Book, now: int, x: S, moves: nat, base: nat)
    requires Ready(b) && Good(b, s, cfg, now, base)
    ensures var b' := Resume(st, s, cfg, b, now, x, moves).0; Good(b', s, cfg, now, base) && b'.trades == b.trades && Evolves(b, b', false)
    decreases moves
  {
    hide Good, Apply, AnswerTo, Evolves;
    EvolvesReflexive(b, false);
    if moves > 0 {
      match st.move(x)
      case Ask(q, andThen) => ResumeGood(st, s, cfg, b, now, andThen(AnswerTo(s, cfg, b, now, q)), moves - 1, base);
      case Act(a, onReply) =>
        ApplyGood(b, s, cfg, a, now, base);
        var (b', reply) := Apply(b, s.registry, a, now);
        ResumeGood(st, s, cfg, b', now, onReply(reply), moves - 1, base);
        EvolvesTransitive(b, b', Resume(st, s, cfg, b, now, x, moves).0, false);
      case Await(_, _) =>
      case Finish =>
      case Throw =>
    }
  }

  lemma {:induction false} WakeGood<S>(st: Strategy<S>, s: Session, cfg: Config, b: Book, now: int, task: Task<S>, done: nat, base: nat)
    requires Ready(b) && Good(b, s, cfg, now, base)
    ensures var b' := Wake(st, s, cfg, b, now, task, done).0; Good(b', s, cfg, now, base) && b'.trades == b.trades && Evolves(b, b', false)
    decreases cfg.maxResumes - done
  {
    hide Good, Resume, Holds, Evolves;
    EvolvesReflexive(b, false);
    if task.Waiting? && task.cond.Some? && Holds(st, s, cfg, b, now, task.cond.value, cfg.patience) == Some(true) {
      ResumeGood(st, s, cfg, b, now, task.next, cfg.patience, base);
      var (b', task') := Resume(st, s, cfg, b, now, task.next, cfg.patience);
      if Alive(task') && done + 1 <= cfg.maxResumes {
        WakeGood(st, s, cfg, b', now, task', done + 1, base);
        EvolvesTransitive(b, b', Wake(st, s, cfg, b, now, task, done).0, false);
      }
    }
  }

  // ----- whole runs ---------------------------------------------------------------------------

  lemma ServeGood(b: Book, s: Session, cfg: Config, c: int, t: int, base: nat)
    requires Ready(b) && Good(b, s, cfg, c, base) && c <= t && (c < t || b.pending == [])
    ensures var b' := Serve(b, cfg, AsOf(s, t)); Good(b', s, cfg, t, base) && TradesAdded(b, b', t) && Evolves(b, b', false)
  {
    hide Good, ProcessRiskRules, Filled, Marked, Ready;
    var m := AsOf(s, t);
    var b1 := Filled(b, cfg, m);
    FilledGood(b, s, cfg, c, t, base);
    var b2 := Marked(b1, cfg, m);
    MarkedGood(b1, s, cfg, t, base);
    RulesGood(b2, s, cfg, t, base);
    EvolvesTransitive(b, b1, b2, false);
    EvolvesTransitive(b, b2, Serve(b, cfg, m), false);
  }

  lemma StepGood<S>(st: Strategy<S>, s: Session, cfg: Config, run: Replay<S>, t: int, base: nat)
    requires Ready(run.book) && Good(run.book, s, cfg, run.clock, base)
    requires Alive(run.task) && run.clock <= t ==> run.clock < t || run.book.pending == []
    ensures var run' := Step(st, s, cfg, run, t);
            && Good(run'.book, s, cfg, run'.clock, base) && TradesAdded(run.book, run'.book, t)
            && run.clock <= run'.clock && Evolves(run.book, run'.book, false)
            && (Alive(run'.task) ==> run'.clock == t)
            && (run'.clock == run.clock || run'.clock == t)
  {
    hide Good, Serve, Wake;
    EvolvesReflexive(run.book, false);
    if Alive(run.task) && run.clock <= t {
      var b := Serve(run.book, cfg, AsOf(s, t));
      ServeGood(run.book, s, cfg, run.clock, t, base);
      WakeGood(st, s, cfg, b, t, run.task, 0, base);
      EvolvesTransitive(run.book, b, Step(st, s, cfg, run, t).book, false);
    }
  }

  lemma StartGood<S>(st: Strategy<S>, s: Session, cfg: Config)
    ensures Good(Started(st, s, cfg).book, s, cfg, 0, 0) && Started(st, s, cfg).book.trades == [] && Started(st, s, cfg).clock == 0
  {
    EmptyIsSound(cfg.delay);
    ResumeGood(st, s, cfg, EmptyBook(cfg.delay), 0, st.start, cfg.patience, 0);
  }

  /** A session may be entered with orders waiting only if its first step is later than the clock. */
  ghost predicate Enterable<S>(start: Replay<S>, steps: seq<int>) {
    Ready(start.book) && Ascending(steps) && (start.book.pending == [] || (steps != [] ==> start.clock < steps[0]))
  }

  lemma {:induction false} RunGood<S>(st: Strategy<S>, s: Session, cfg: Config, start: Replay<S>, steps: seq<int>, k: nat, base: nat)
    requires k <= |steps| && Enterable(start, steps) && Good(start.book, s, cfg, start.clock, base)
    ensures var run := RunFrom(st, s, cfg, start, steps, k);
            && Good(run.book, s, cfg, run.clock, base) && start.clock <= run.clock
            && (Alive(run.task) && k > 0 ==> run.clock == steps[k - 1])
            && (run.clock == start.clock || exists j :: 0 <= j < k && run.clock == steps[j])
  {
    hide Good, Step;
    if k > 0 {
      RunGood(st, s, cfg, start, steps, k - 1, base);
      StepGood(st, s, cfg, RunFrom(st, s, cfg, start, steps, k - 1), steps[k - 1], base);
    }
  }

  /** Over any stretch of a run, trades are only added, closed and cancelled legs stay as they are, and
      entries are never rewritten. */
  lemma {:induction false} RunEvolves<S>(st: Strategy<S>, s: Session, cfg: Config, start: Replay<S>, steps: seq<int>, j: nat, k: nat, base: nat)
    requires j <= k <= |steps| && Enterable(start, steps) && Good(start.book, s, cfg, start.clock, base)
    ensures Evolves(RunFrom(st, s, cfg, start, steps, j).book, RunFrom(st, s, cfg, start, steps, k).book, false)
  {
    hide Good, Step, Evolves;
    EvolvesReflexive(RunFrom(st, s, cfg, start, steps, j).book, false);
    if j < k {
      RunEvolves(st, s, cfg, start, steps, j, k - 1, base);
      RunGood(st, s, cfg, start, steps, k - 1, base);
      StepGood(st, s, cfg, RunFrom(st, s, cfg, start, steps, k - 1), steps[k - 1], base);
      EvolvesTransitive(RunFrom(st, s, cfg, start, steps, j).book, RunFrom(st, s, cfg, start, steps, k - 1).book,
                        RunFrom(st, s, cfg, start, steps, k).book, false);
    }
  }

  /** The data contract of a replay: sorted columns, and every observation later than the epoch. */
  ghost predicate Timed(s: Session) {
    Sorted(s) && forall t :: Prints(s, t) ==> t > 0
  }

  lemma StartEnterable<S>(st: Strategy<S>, s: Session, cfg: Config)
    requires Timed(s)
    ensures Enterable(Started(st, s, cfg), Timeline(s)) && Good(Started(st, s, cfg).book, s, cfg, Started(st, s, cfg).clock, 0)
  {
    var steps := Timeline(s);
    TimelineIs(s, steps);
    assert steps != [] ==> steps[0] in steps;
    StartGood(st, s, cfg);
  }

  /** At every point of every replay of a session whose times are positive, whatever the strategy does:
      the book is sound, every trade filled strictly after it was decided and no sooner than the delay
      allows, and every price and cost is what the fill model and cost policy give for the quote that
      stood at the fill. */
  lemma EveryRunIsGood<S>(st: Strategy<S>, s: Session, cfg: Config, k: nat)
    requires Timed(s) && k <= |Timeline(s)|
    ensures var b := RunUpto(st, s, cfg, Timeline(s), k).book;
            && Sound(b)
            && (forall j :: 0 <= j < |b.trades| ==>
                  && b.trades[j].fillTs > b.trades[j].signalTs
                  && b.trades[j].fillTs >= b.trades[j].signalTs + cfg.delay
                  && Priced(s.registry, cfg.pol, AsOf(s, b.trades[j].fillTs), b.trades[j]))
            && Registered(b, |s.registry|)
  {
    StartEnterable(st, s, cfg);
    RunGood(st, s, cfg, Started(st, s, cfg), Timeline(s), k, 0);
  }
}
