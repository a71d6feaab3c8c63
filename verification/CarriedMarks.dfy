/** Valuation over whole runs under the default fill model: every live leg was entered at a positive
    price, and a run that refreshes marks values it at a mark it really carries. */
module CarriedMarks {
  import opened Types
  import opened Books
  import opened Matching
  import opened Ledger
  import opened Soundness
  import opened Effects
  import opened RiskRules
  import opened Sessions
  import opened Strategies
  import opened EventLoop
  import opened RunProperties
  import opened Backtest
  import opened BacktestProperties

  /** The default fill model: no two-sided market, or a crossed one, means no execution. */
  function CrossSpread(q: Quote, side: Side, qty: int): Option<int> {
    if !q.TwoSided() || q.ask < q.bid then None
    else Some(if side == Buy then q.ask else q.bid)
  }

  ghost predicate CrossesSpread(pol: Policy) {
    forall q, side, qty :: pol.fill(q, side, qty) == CrossSpread(q, side, qty)
  }

  // ----- legs ---------------------------------------------------------------------------------

  /** A live leg has a positive entry and, where marks are carried, a recorded mark. */
  predicate HeldLeg(l: Leg, carry: bool) {
    l.Live() ==> l.entry > 0 && (carry ==> l.lastMarkTs != 0 && l.lastMark >= 0)
  }

  /** Where marks are carried, the mark recorded is the one the leg would close at now. */
  predicate ValuedLeg(l: Leg, carry: bool, m: Market) {
    HeldLeg(l, carry) && (l.Live() && carry ==> MarkFor(l, m) == l.lastMark)
  }

  /** Whatever happens to a live leg other than a fill or a mark. */
  predicate Continuation(l: Leg, l': Leg) {
    l'.Live() ==> l.Live() && l' == l.(state := l'.state)
  }

  ghost predicate AllHeld(b: Book, carry: bool) {
    forall p, i :: HasLeg(b, p, i) ==> HeldLeg(LegAt(b, p, i), carry)
  }

  ghost predicate AllValued(b: Book, carry: bool, m: Market) {
    forall p, i :: HasLeg(b, p, i) ==> ValuedLeg(LegAt(b, p, i), carry, m)
  }

  /** No leg became live, and live legs differ at most in whether an exit is working. */
  ghost predicate Continues(b: Book, b': Book) {
    forall p, i :: HasLeg(b', p, i) && LegAt(b', p, i).Live() ==> HasLeg(b, p, i) && Continuation(LegAt(b, p, i), LegAt(b', p, i))
  }

  /** A live leg whose instrument has not printed is the same holding, at the same mark, as in `b0`. */
  ghost predicate CarriedFrom(b0: Book, b: Book, m: Market) {
    forall p, i :: HasLeg(b, p, i) && LegAt(b, p, i).Live() && m.Latest(LegAt(b, p, i).instrument).None?
      ==> HasLeg(b0, p, i) && Continuation(LegAt(b0, p, i), LegAt(b, p, i))
  }

  lemma ContinuesReflexive(b: Book)
    ensures Continues(b, b)
  {
  }

  lemma ContinuesTransitive(a: Book, b: Book, c: Book)
    requires Continues(a, b) && Continues(b, c)
    ensures Continues(a, c)
  {
  }

  lemma ContinuesKeeps(b0: Book, b: Book, b': Book, carry: bool, m: Market)
    requires Continues(b, b')
    ensures AllHeld(b, carry) ==> AllHeld(b', carry)
    ensures AllValued(b, carry, m) ==> AllValued(b', carry, m)
    ensures CarriedFrom(b0, b, m) ==> CarriedFrom(b0, b', m)
  {
  }

  // ----- a fill pass, then the marks ----------------------------------------------------------

  /** Between the fills and the marks: a live leg is held, or was entered just now off a two-sided quote. */
  predicate Fresh(l: Leg, m: Market) {
    && l.entry > 0 && m.Latest(l.instrument).Some? && m.Latest(l.instrument).value.TwoSided()
  }

  lemma FilledLegs(b: Book, pol: Policy, m: Market, carry: bool, p: int, i: int)
    requires Matched(b) && AllHeld(b, carry) && CrossesSpread(pol) && HasLeg(b, p, i)
    ensures var l, l' := LegAt(b, p, i), LegAt(ProcessPending(b, pol, m), p, i);
            Continuation(l, l') || Fresh(l', m)
  {
    ProcessPendingEffect(b, pol, m);
    var b' := ProcessPending(b, pol, m);
    if LegAt(b, p, i).Working() {
      WorkedIsWorking(b, p, i);
      var j :| 0 <= j < |b.pending| && b.pending[j].position == p && b.pending[j].leg == i;
      var o := b.pending[j];
      assert OrderMatches(o, LegAt(b, p, i), b.delay);
      assert LegAt(b', o.position, o.leg) == AfterFill(LegAt(b, o.position, o.leg), o, pol, m);
    }
  }

  lemma FillsThenMarks(b0: Book, b: Book, pol: Policy, m: Market, carry: bool)
    requires Matched(b) && AllHeld(b, carry) && CrossesSpread(pol) && m.now != 0 && CarriedFrom(b0, b, m)
    ensures var c := ProcessPending(b, pol, m);
            var d := if carry then RefreshMarks(c, m) else c;
            AllValued(d, carry, m) && CarriedFrom(b0, d, m)
  {
    var c := ProcessPending(b, pol, m);
    var d := if carry then RefreshMarks(c, m) else c;
    forall p, i | HasLeg(d, p, i)
      ensures ValuedLeg(LegAt(d, p, i), carry, m)
      ensures LegAt(d, p, i).Live() && m.Latest(LegAt(d, p, i).instrument).None? ==>
                HasLeg(b0, p, i) && Continuation(LegAt(b0, p, i), LegAt(d, p, i))
    {
      assert HasLeg(b, p, i) && HasLeg(c, p, i);
      FilledLegs(b, pol, m, carry, p, i);
      assert LegAt(d, p, i) == if carry then Remarked(LegAt(c, p, i), m) else LegAt(c, p, i);
    }
  }

  lemma RulesContinue(b: Book, m: Market)
    requires Sound(b)
    ensures Continues(b, ProcessRiskRules(b, m))
  {
    NoTriggerMissed(b, m);
    var b' := ProcessRiskRules(b, m);
    forall p, i | HasLeg(b', p, i) ensures HasLeg(b, p, i) && Continuation(LegAt(b, p, i), LegAt(b', p, i)) {
      assert ExitSteps(b.positions[p].legs, b'.positions[p].legs);
      assert ExitStep(LegAt(b, p, i), LegAt(b', p, i));
    }
  }

  lemma ServeValues(b0: Book, b: Book, cfg: Config, m: Market)
    requires Ready(b) && Sound(b) && AllHeld(b, cfg.carryMarks) && CrossesSpread(cfg.pol) && m.now != 0 && CarriedFrom(b0, b, m)
    ensures var b' := Serve(b, cfg, m); AllValued(b', cfg.carryMarks, m) && CarriedFrom(b0, b', m)
  {
    FillsThenMarks(b0, b, cfg.pol, m, cfg.carryMarks);
    ProcessPendingSound(b, cfg.pol, m);
    var c := Filled(b, cfg, m);
    RefreshMarksSound(c, m);
    var d := Marked(c, cfg, m);
    RulesContinue(d, m);
    ContinuesKeeps(b0, d, ProcessRiskRules(d, m), cfg.carryMarks, m);
  }

  // ----- strategy code ------------------------------------------------------------------------

  lemma CloseContinues(b: Book, p: nat, now: int)
    requires Sound(b) && p < |b.positions|
    ensures Continues(b, SubmitClose(b, p, now, false))
  {
    SubmitCloseEffect(b, p, now, false);
    var b' := SubmitClose(b, p, now, false);
    forall q, i | HasLeg(b', q, i) ensures HasLeg(b, q, i) && Continuation(LegAt(b, q, i), LegAt(b', q, i)) {
      assert HasLeg(b, q, i);
    }
  }

  lemma OpenContinues(b: Book, name: string, legs: seq<int>, side: Side, qty: int, now: int)
    requires CanOpen(legs, qty)
    ensures Continues(b, SubmitOpen(b, name, legs, side, qty, now))
  {
    var b' := SubmitOpen(b, name, legs, side, qty, now);
    forall p, i | HasLeg(b', p, i) && LegAt(b', p, i).Live() ensures HasLeg(b, p, i) && Continuation(LegAt(b, p, i), LegAt(b', p, i)) {
      if p < |b.positions| { assert b'.positions[p] == b.positions[p]; }
    }
  }

  lemma CloseLegContinues(b: Book, p: nat, i: nat, now: int)
    requires HasLeg(b, p, i)
    ensures Continues(b, SubmitCloseLeg(b, p, i, now, false))
  {
  }

  lemma ApplyContinues(b: Book, registry: seq<InstrumentSpec>, a: Action, now: int)
    requires Ready(b) && Sound(b)
    ensures Continues(b, Apply(b, registry, a, now).0)
  {
    hide Continues, SubmitOpen, SubmitClose, SubmitCloseLeg, Sound;
    ContinuesReflexive(b);
    match a
    case TradeLots(side, legs, lots, name) =>
      if legs != [] && Contracts(registry, legs, lots).Some? {
        OpenContinues(b, name, legs, side, Contracts(registry, legs, lots).value, now);
      }
    case ClosePosition(p) =>
      if 0 <= p < |b.positions| { CloseContinues(b, p, now); }
    case CloseLeg(p, i) =>
      if HasLeg(b, p, i) { CloseLegContinues(b, p, i, now); }
    case Attach(kind, p, leg) =>
      AttachContinues(b, kind, p, leg);
  }

  lemma AttachContinues(b: Book, kind: RuleKind, p: int, leg: Option<nat>)
    ensures p >= 0 ==> Continues(b, AttachRule(b, kind, p, leg))
  {
  }

  lemma {:induction false} ResumeContinues<S>(st: Strategy<S>, s: Session, cfg: Config, b: Book, now: int, x: S, moves: nat, base: nat)
    requires Ready(b) && Good(b, s, cfg, now, base)
    ensures Continues(b, Resume(st, s, cfg, b, now, x, moves).0)
    decreases moves
  {
    hide Apply, AnswerTo, Continues, Sound, OrdersBy, TradesBy, Honest, Registered;
    ContinuesReflexive(b);
    if moves > 0 {
      match st.move(x)
      case Ask(q, andThen) => ResumeContinues(st, s, cfg, b, now, andThen(AnswerTo(s, cfg, b, now, q)), moves - 1, base);
      case Act(a, onReply) =>
        ApplyGood(b, s, cfg, a, now, base);
        ApplyContinues(b, s.registry, a, now);
        var (b', reply) := Apply(b, s.registry, a, now);
        ResumeContinues(st, s, cfg, b', now, onReply(reply), moves - 1, base);
        ContinuesTransitive(b, b', Resume(st, s, cfg, b, now, x, moves).0);
      case Await(_, _) =>
      case Finish =>
      case Throw =>
    }
  }

  lemma {:induction false} WakeContinues<S>(st: Strategy<S>, s: Session, cfg: Config, b: Book, now: int, task: Task<S>, done: nat, base: nat)
    requires Ready(b) && Good(b, s, cfg, now, base)
    ensures Continues(b, Wake(st, s, cfg, b, now, task, done).0)
    decreases cfg.maxResumes - done
  {
    hide Good, Resume, Holds, Continues;
    ContinuesReflexive(b);
    if task.Waiting? && task.cond.Some? && Holds(st, s, cfg, b, now, task.cond.value, cfg.patience) == Some(true) {
      ResumeGood(st, s, cfg, b, now, task.next, cfg.patience, base);
      ResumeContinues(st, s, cfg, b, now, task.next, cfg.patience, base);
      var (b', task') := Resume(st, s, cfg, b, now, task.next, cfg.patience);
      if Alive(task') && done + 1 <= cfg.maxResumes {
        WakeContinues(st, s, cfg, b', now, task', done + 1, base);
        ContinuesTransitive(b, b', Wake(st, s, cfg, b, now, task, done).0);
      }
    }
  }

  // ----- a session ----------------------------------------------------------------------------

  lemma PrintedStays(s: Session, t: int, t': int)
    requires Sorted(s) && t <= t'
    ensures AsOf(s, t).latest.Keys <= AsOf(s, t').latest.Keys
  {
    forall id | id in AsOf(s, t).latest.Keys ensures id in AsOf(s, t').latest.Keys {
      UptoUpto(s.columns[id], t, t');
      assert CountUpto(s.columns[id], t) <= |Upto(s.columns[id], t')|;
    }
  }

  lemma CarriedLater(b0: Book, b: Book, m: Market, m': Market)
    requires CarriedFrom(b0, b, m) && m.latest.Keys <= m'.latest.Keys
    ensures CarriedFrom(b0, b, m')
  {
    forall p, i | HasLeg(b, p, i) && m'.Latest(LegAt(b, p, i).instrument).None? ensures m.Latest(LegAt(b, p, i).instrument).None? { }
  }

  lemma StepValues<S>(st: Strategy<S>, s: Session, cfg: Config, b0: Book, run: Replay<S>, t: int, base: nat)
    requires Ready(run.book) && Good(run.book, s, cfg, run.clock, base) && CrossesSpread(cfg.pol) && t != 0
    requires Alive(run.task) && run.clock <= t && (run.clock < t || run.book.pending == [])
    requires AllHeld(run.book, cfg.carryMarks) && CarriedFrom(b0, run.book, AsOf(s, t))
    ensures var b := Step(st, s, cfg, run, t).book; AllValued(b, cfg.carryMarks, AsOf(s, t)) && CarriedFrom(b0, b, AsOf(s, t))
  {
    hide AllHeld, AllValued, CarriedFrom, CrossesSpread, Sound, Serve, Wake, Continues, Honest, OrdersBy, TradesBy, Registered;
    var m := AsOf(s, t);
    var b := Serve(run.book, cfg, m);
    ServeValues(b0, run.book, cfg, m);
    ServeGood(run.book, s, cfg, run.clock, t, base);
    WakeContinues(st, s, cfg, b, t, run.task, 0, base);
    ContinuesKeeps(b0, b, Step(st, s, cfg, run, t).book, cfg.carryMarks, m);
  }

  lemma ValuedIsHeld(b: Book, carry: bool, m: Market)
    requires AllValued(b, carry, m)
    ensures AllHeld(b, carry)
  {
  }

  /** What a session's steps keep, whatever the strategy does: holdings stay properly entered and
      marked, and a holding whose instrument has not printed keeps the mark it came in with. */
  lemma {:induction false} SessionValues<S>(st: Strategy<S>, s: Session, cfg: Config, start: Replay<S>, steps: seq<int>, k: nat, base: nat)
    requires Timed(s) && steps == Timeline(s) && k <= |steps| && Enterable(start, steps)
    requires Good(start.book, s, cfg, start.clock, base) && CrossesSpread(cfg.pol) && AllHeld(start.book, cfg.carryMarks)
    requires Alive(RunFrom(st, s, cfg, start, steps, k).task)
    ensures var b := RunFrom(st, s, cfg, start, steps, k).book;
            && AllHeld(b, cfg.carryMarks)
            && (k > 0 ==> AllValued(b, cfg.carryMarks, AsOf(s, steps[k - 1])) && CarriedFrom(start.book, b, AsOf(s, steps[k - 1])))
  {
    hide Good, Timeline, AllHeld, AllValued, CarriedFrom, CrossesSpread, Step, AsOf, Sorted;
    if k > 0 {
      var run := RunFrom(st, s, cfg, start, steps, k - 1);
      AliveBefore(st, s, cfg, run, steps[k - 1]);
      SessionValues(st, s, cfg, start, steps, k - 1, base);
      RunGood(st, s, cfg, start, steps, k - 1, base);
      StepTimes(s, steps, k);
      if k > 1 {
        PrintedStays(s, steps[k - 2], steps[k - 1]);
        CarriedLater(start.book, run.book, AsOf(s, steps[k - 2]), AsOf(s, steps[k - 1]));
      } else {
        CarriedItself(start.book, AsOf(s, steps[k - 1]));
      }
      StepValues(st, s, cfg, start.book, run, steps[k - 1], base);
      ValuedIsHeld(RunFrom(st, s, cfg, start, steps, k).book, cfg.carryMarks, AsOf(s, steps[k - 1]));
    }
  }

  lemma AliveBefore<S>(st: Strategy<S>, s: Session, cfg: Config, run: Replay<S>, t: int)
    requires Ready(run.book) && Alive(Step(st, s, cfg, run, t).task)
    ensures Alive(run.task) && run.clock <= t
  {
  }

  lemma CarriedItself(b: Book, m: Market)
    ensures CarriedFrom(b, b, m)
  {
  }

  lemma StepTimes(s: Session, steps: seq<int>, k: nat)
    requires Timed(s) && steps == Timeline(s) && 0 < k <= |steps|
    ensures steps[k - 1] > 0 && (k > 1 ==> steps[k - 2] < steps[k - 1])
  {
    TimelineIs(s, []);
    assert steps[k - 1] in steps;
  }

  // ----- the start of a run -------------------------------------------------------------------

  lemma StartHeld<S>(st: Strategy<S>, s: Session, cfg: Config, carry: bool)
    ensures AllHeld(Started(st, s, cfg).book, carry)
  {
    EmptyIsSound(cfg.delay);
    var b := EmptyBook(cfg.delay);
    ResumeContinues(st, s, cfg, b, 0, st.start, cfg.patience, 0);
  }

  // ----- multi-session runs -------------------------------------------------------------------

  lemma LiveKeptContinues(b: Book, c: Book)
    requires LiveKept(b, c)
    ensures Continues(b, c)
  {
    forall p, i | HasLeg(c, p, i) ensures HasLeg(b, p, i) { }
  }

  lemma CancelContinues(c: Book)
    requires Ready(c) && Sound(c)
    ensures Continues(c, CancelWorking(c))
  {
    CancelWorkingEffect(c);
    var d := CancelWorking(c);
    forall p, i | HasLeg(d, p, i) ensures HasLeg(c, p, i) && Continuation(LegAt(c, p, i), LegAt(d, p, i)) {
      assert HasLeg(c, p, i);
    }
  }

  lemma CloseHolds<S>(l: Progress<S>, plan: Plan, s: Session, date: int, seen: nat)
    requires Ready(l.run.book) && Sound(l.run.book) && Alive(Close(l, plan, s, date, seen).run.task)
    ensures Continues(l.run.book, Close(l, plan, s, date, seen).run.book)
  {
    hide Sound, SettleSeries, DueExpiries, CancelWorking, Continues;
    if Alive(l.run.task) {
      var b := l.run.book;
      var now := SettleTime(plan, date, l.run.clock);
      var due := DueExpiries(b, s.registry, date);
      var c := SettleSeries(b, plan, s, now, due, |due|).value;
      SettleSeriesSound(b, plan, s, now, due, |due|);
      SettlingSound(b, c, now);
      LiveKeptContinues(b, c);
      CancelContinues(c);
      ContinuesTransitive(b, c, CancelWorking(c));
    }
  }

  lemma {:induction false} DaysHold<S>(st: Strategy<S>, plan: Plan, dates: seq<int>, load: int -> Option<Session>,
                                       registry: seq<InstrumentSpec>, k: nat)
    requires Source(dates, load, registry) && k <= |dates| && CrossesSpread(plan.cfg.pol)
    requires Alive(Days(st, plan, dates, load, k).run.task)
    ensures AllHeld(Days(st, plan, dates, load, k).run.book, plan.cfg.carryMarks)
  {
    hide AllHeld, CrossesSpread, DayInv, Timed, Timeline, RunFrom, Close, Started;
    if k == 0 {
      StartHeld(st, load(dates[0]).value, plan.cfg, plan.cfg.carryMarks);
    } else {
      var l := Days(st, plan, dates, load, k - 1);
      if load(dates[k - 1]).Some? {
        var s := load(dates[k - 1]).value;
        var run := RunFrom(st, s, plan.cfg, l.run, Timeline(s), |Timeline(s)|);
        AliveThroughDay(st, plan, l, dates[k - 1], s);
        DaysHold(st, plan, dates, load, registry, k - 1);
        DayEntered(st, plan, dates, load, registry, k - 1, s);
        SessionValues(st, s, plan.cfg, l.run, Timeline(s), |Timeline(s)|, |l.run.book.trades|);
        RunGood(st, s, plan.cfg, l.run, Timeline(s), |Timeline(s)|, |l.run.book.trades|);
        GoodIsStanding(run.book, s, plan.cfg, run.clock, |l.run.book.trades|);
        CloseHolds(l.(run := run), plan, s, dates[k - 1], |l.run.book.trades|);
        ContinuesKeeps(run.book, run.book, Days(st, plan, dates, load, k).run.book, plan.cfg.carryMarks, AsOf(s, 0));
      } else {
        DaysHold(st, plan, dates, load, registry, k - 1);
      }
    }
  }

  lemma AliveThroughDay<S>(st: Strategy<S>, plan: Plan, l: Progress<S>, date: int, s: Session)
    requires Ready(l.run.book)
    requires var run := RunFrom(st, s, plan.cfg, l.run, Timeline(s), |Timeline(s)|);
             Alive(Close(l.(run := run), plan, s, date, |l.run.book.trades|).run.task)
    ensures Alive(RunFrom(st, s, plan.cfg, l.run, Timeline(s), |Timeline(s)|).task) && Alive(l.run.task)
  {
    if !Alive(l.run.task) {
      DeadStays(st, s, plan.cfg, l.run, Timeline(s), |Timeline(s)|);
    }
  }

  /** Each session is entered in good order. */
  lemma DayEntered<S>(st: Strategy<S>, plan: Plan, dates: seq<int>, load: int -> Option<Session>,
                      registry: seq<InstrumentSpec>, k: nat, s: Session)
    requires Source(dates, load, registry) && k < |dates| && load(dates[k]) == Some(s)
    requires Alive(Days(st, plan, dates, load, k).run.task)
    ensures var run := Days(st, plan, dates, load, k).run;
            Timed(s) && Enterable(run, Timeline(s)) && Good(run.book, s, plan.cfg, run.clock, |run.book.trades|)
  {
    hide Days, Standing;
    var run := Days(st, plan, dates, load, k).run;
    DaysKeep(st, plan, dates, load, registry, k);
    TimelineIs(s, []);
    assert Timeline(s) != [] ==> Timeline(s)[0] in Timeline(s);
    StandingIsGood(run.book, s, plan.cfg, run.clock);
  }

  /** A long leg never loses more than its premium; a short leg never gains more than its own. */
  predicate Bounded(l: Leg, m: Market) {
    && (l.qty > 0 ==> LegPnl(l, m) >= -(l.entry * l.qty))
    && (l.qty < 0 ==> LegPnl(l, m) <= -(l.entry * l.qty))
  }

  lemma Product(mark: int, entry: int, qty: int)
    requires mark >= 0
    ensures qty > 0 ==> mark * qty - entry * qty >= -(entry * qty)
    ensures qty < 0 ==> mark * qty - entry * qty <= -(entry * qty)
  {
  }

  lemma ValuedIsBounded(l: Leg, m: Market)
    requires ValuedLeg(l, true, m) && l.Live()
    ensures Bounded(l, m)
  {
    Product(MarkFor(l, m), l.entry, l.qty);
  }

  /** In every multi-session run that refreshes marks, right after every step of every session: each live
      leg has a recorded mark, and that mark is the price it would close at; a leg whose instrument has
      not printed yet this session still stands at the mark it brought from the session before; and no
      long leg shows a loss beyond its premium, nor a short leg a gain beyond its own. */
  lemma MarksAreCarried<S>(st: Strategy<S>, plan: Plan, dates: seq<int>, load: int -> Option<Session>,
                           registry: seq<InstrumentSpec>, k: nat, s: Session, j: nat)
    requires Source(dates, load, registry) && k < |dates| && load(dates[k]) == Some(s) && 0 < j <= |Timeline(s)|
    requires CrossesSpread(plan.cfg.pol) && plan.cfg.carryMarks
    requires Alive(RunFrom(st, s, plan.cfg, Days(st, plan, dates, load, k).run, Timeline(s), j).task)
    ensures var start := Days(st, plan, dates, load, k).run;
            var b, m := RunFrom(st, s, plan.cfg, start, Timeline(s), j).book, AsOf(s, Timeline(s)[j - 1]);
            && CarriedFrom(start.book, b, m)
            && forall p, i :: HasLeg(b, p, i) && LegAt(b, p, i).Live() ==>
                 var l := LegAt(b, p, i);
                 l.entry > 0 && l.lastMarkTs != 0 && MarkFor(l, m) == l.lastMark >= 0 && Bounded(l, m)
  {
    hide Days, CrossesSpread, Timed, Timeline, RunFrom, Enterable, Good, CarriedFrom;
    var start := Days(st, plan, dates, load, k).run;
    AliveInSession(st, s, plan.cfg, start, Timeline(s), j);
    DayEntered(st, plan, dates, load, registry, k, s);
    DaysHold(st, plan, dates, load, registry, k);
    SessionValues(st, s, plan.cfg, start, Timeline(s), j, |start.book.trades|);
    var b, m := RunFrom(st, s, plan.cfg, start, Timeline(s), j).book, AsOf(s, Timeline(s)[j - 1]);
    forall p, i | HasLeg(b, p, i) && LegAt(b, p, i).Live()
      ensures var l := LegAt(b, p, i);
              l.entry > 0 && l.lastMarkTs != 0 && MarkFor(l, m) == l.lastMark >= 0 && Bounded(l, m)
    {
      ValuedIsBounded(LegAt(b, p, i), m);
    }
  }

  lemma AliveInSession<S>(st: Strategy<S>, s: Session, cfg: Config, start: Replay<S>, steps: seq<int>, k: nat)
    requires k <= |steps| && Ready(start.book) && Alive(RunFrom(st, s, cfg, start, steps, k).task)
    ensures Alive(start.task)
  {
    if !Alive(start.task) {
      DeadStays(st, s, cfg, start, steps, k);
    }
  }
}
