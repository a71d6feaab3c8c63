/** What the engine owes at every step of every run, before and after the strategy speaks: no order that
    could trade is passed over, no rule that has reached its limit is left waiting, and the strategy is
    resumed exactly as long as what it awaits holds. */
module StepDuties {
  import opened Types
  import opened Books
  import opened Matching
  import opened Soundness
  import opened Effects
  import opened RiskRules
  import opened RuleLaw
  import opened Sessions
  import opened Strategies
  import opened EventLoop
  import opened RunProperties
  import opened Backtest
  import opened BacktestProperties
  import opened CarriedMarks

  /** No unspent rule has reached its limit. */
  ghost predicate RulesServed(b: Book, m: Market) {
    forall r :: 0 <= r < |b.rules| && !b.rules[r].fired ==>
      b.rules[r].position < |b.positions| && !Owed(b.positions[b.rules[r].position].legs, b.rules[r], m)
  }

  /** Every order from before now that is still waiting is not yet eligible, or its instrument has not
      printed, or the fill model refuses the quote. */
  ghost predicate OrdersServed(b: Book, pol: Policy, m: Market) {
    forall k :: 0 <= k < |b.pending| && b.pending[k].submittedAt < m.now && b.pending[k].eligibleAt <= m.now ==>
      var o := b.pending[k];
      match m.Latest(o.instrument)
      case None => true
      case Some(q) => pol.fill(q, o.side, o.qty).None?
  }

  // ----- one pass -----------------------------------------------------------------------------

  lemma PassServesRules(b: Book, m: Market)
    requires Sound(b) && RulesAddressed(b) && Addressed(b, b.pending)
    ensures RulesServed(ProcessRiskRules(b, m), m)
  {
    hide Owed, Due, Sound;
    NoTriggerMissed(b, m);
    ProcessRiskRulesSound(b, m);
    var b' := ProcessRiskRules(b, m);
    RulesHavePositions(b');
    forall r | 0 <= r < |b'.rules| && !b'.rules[r].fired
      ensures b'.rules[r].position < |b'.positions| && !Owed(b'.positions[b'.rules[r].position].legs, b'.rules[r], m)
    {
      NotDueNotOwed(b'.positions[b'.rules[r].position].legs, b'.rules[r], m);
    }
  }

  lemma NotDueNotOwed(legs: seq<Leg>, rule: Rule, m: Market)
    requires !Due(legs, rule, m)
    ensures !Owed(legs, rule, m)
  {
    hide Owed;
    OwedIsDue(legs, rule, m);
  }

  lemma RulesHavePositions(b: Book)
    requires Sound(b)
    ensures RulesAddressed(b)
  {
  }

  lemma {:induction false} PassOrdersNow(b: Book, m: Market, r: nat)
    requires RulesAddressed(b) && Addressed(b, b.pending) && Sound(b) && r <= |b.rules|
    ensures OnlyNew(b, RulesUpto(b, m, r), m.now)
  {
    hide Sound, RunRule;
    if r > 0 {
      PassOrdersNow(b, m, r - 1);
      RulesUptoSound(b, m, r - 1);
      var c := RulesUpto(b, m, r - 1);
      RunRuleNew(c, m, r - 1);
      OnlyNewTransitive(b, c, RulesUpto(b, m, r), m.now);
    }
  }

  lemma OnlyNewTransitive(a: Book, b: Book, c: Book, now: int)
    requires OnlyNew(a, b, now) && OnlyNew(b, c, now)
    ensures OnlyNew(a, c, now)
  {
    forall k | 0 <= k < |c.pending| ensures c.pending[k] in a.pending || c.pending[k].submittedAt == now {
      if c.pending[k] in b.pending {
        var j :| 0 <= j < |b.pending| && b.pending[j] == c.pending[k];
      }
    }
  }

  lemma OrdersServedKept(b: Book, b': Book, pol: Policy, m: Market)
    requires OrdersServed(b, pol, m) && OnlyNew(b, b', m.now)
    ensures OrdersServed(b', pol, m)
  {
    forall k | 0 <= k < |b'.pending| && b'.pending[k].submittedAt < m.now
      ensures exists j :: 0 <= j < |b.pending| && b.pending[j] == b'.pending[k]
    {
      assert b'.pending[k] in b.pending;
    }
  }

  lemma {:induction false} RestingUnfilled(orders: seq<Order>, pol: Policy, m: Market)
    ensures forall o :: o in Resting(orders, pol, m) ==> FillPrice(pol, m, o).None?
  {
    if orders != [] {
      RestingUnfilled(orders[..|orders| - 1], pol, m);
    }
  }

  lemma FillsServeOrders(b: Book, pol: Policy, m: Market)
    requires Matched(b)
    ensures OrdersServed(ProcessPending(b, pol, m), pol, m)
  {
    ProcessPendingEffect(b, pol, m);
    RestingUnfilled(b.pending, pol, m);
    var b' := ProcessPending(b, pol, m);
    forall k | 0 <= k < |b'.pending| ensures FillPrice(pol, m, b'.pending[k]).None? {
      assert b'.pending[k] in Resting(b.pending, pol, m);
    }
  }

  /** What the engine does at a step before it lets the strategy speak. */
  lemma ServeServes(b: Book, s: Session, cfg: Config, c: int, t: int, base: nat)
    requires Ready(b) && Good(b, s, cfg, c, base) && c <= t && (c < t || b.pending == [])
    ensures var w := Serve(b, cfg, AsOf(s, t)); RulesServed(w, AsOf(s, t)) && OrdersServed(w, cfg.pol, AsOf(s, t))
  {
    hide Good, ProcessRiskRules, RulesServed, OrdersServed, OnlyNew, Ready;
    var m := AsOf(s, t);
    GoodIsMatched(b, s, cfg, c, base);
    FillsServeOrders(b, cfg.pol, m);
    FilledGood(b, s, cfg, c, t, base);
    var d := Marked(Filled(b, cfg, m), cfg, m);
    MarkedGood(Filled(b, cfg, m), s, cfg, t, base);
    GoodIsMatched(d, s, cfg, t, base);
    MarksLeaveOrders(Filled(b, cfg, m), cfg, m);
    OrdersServedKept(Filled(b, cfg, m), d, cfg.pol, m);
    PassServesRules(d, m);
    PassOrdersAllNow(d, m);
    OrdersServedKept(d, ProcessRiskRules(d, m), cfg.pol, m);
  }

  lemma PassOrdersAllNow(b: Book, m: Market)
    requires RulesAddressed(b) && Addressed(b, b.pending) && Sound(b)
    ensures OnlyNew(b, ProcessRiskRules(b, m), m.now)
  {
    hide Sound, RulesUpto, OnlyNew;
    PassOrdersNow(b, m, |b.rules|);
  }

  lemma GoodIsMatched(b: Book, s: Session, cfg: Config, t: int, base: nat)
    requires Good(b, s, cfg, t, base)
    ensures Matched(b) && Sound(b) && RulesAddressed(b) && Addressed(b, b.pending)
  {
  }

  lemma MarksLeaveOrders(b: Book, cfg: Config, m: Market)
    requires Ready(b)
    ensures OnlyNew(b, Marked(b, cfg, m), m.now)
  {
  }

  // ----- the strategy's turn ------------------------------------------------------------------

  /** Suspended on a condition that holds now. */
  ghost predicate ShouldResume<S>(st: Strategy<S>, s: Session, cfg: Config, b: Book, now: int, task: Task<S>) {
    task.Waiting? && task.cond.Some? && Holds(st, s, cfg, b, now, task.cond.value, cfg.patience) == Some(true)
  }

  /** Strategy code has nothing to do: it has returned, or waits for something that does not hold now. */
  ghost predicate Idles<S>(st: Strategy<S>, s: Session, cfg: Config, b: Book, now: int, task: Task<S>) {
    && Alive(task)
    && (task.Waiting? && task.cond.Some? ==> Holds(st, s, cfg, b, now, task.cond.value, cfg.patience) == Some(false))
  }

  /** When the strategy's turn is over, what it awaits does not hold: it was resumed as often as it should. */
  lemma {:induction false} TurnIsComplete<S>(st: Strategy<S>, s: Session, cfg: Config, b: Book, now: int, task: Task<S>, done: nat)
    requires Ready(b)
    ensures var (b', task') := Wake(st, s, cfg, b, now, task, done);
            Alive(task') ==> Idles(st, s, cfg, b', now, task')
    decreases cfg.maxResumes - done
  {
    hide Ready, Resume, Holds;
    if ShouldResume(st, s, cfg, b, now, task) {
      var (b', task') := Resume(st, s, cfg, b, now, task.next, cfg.patience);
      if Alive(task') && done + 1 <= cfg.maxResumes {
        TurnIsComplete(st, s, cfg, b', now, task', done + 1);
      }
    }
  }

  /** And it was not resumed without cause: if what it awaits does not hold, nothing happens at all. */
  lemma NoTurnWithoutCause<S>(st: Strategy<S>, s: Session, cfg: Config, b: Book, now: int, task: Task<S>)
    requires Ready(b) && Idles(st, s, cfg, b, now, task)
    ensures Wake(st, s, cfg, b, now, task, 0) == (b, task)
  {
    hide Ready, Resume, Holds;
  }

  /** Resumed `n` times in a row, each time with cause, the strategy is still running and stands at `end`. */
  ghost predicate Resumed<S>(st: Strategy<S>, s: Session, cfg: Config, b: Book, now: int, task: Task<S>, n: nat, end: (Book, Task<S>))
    requires Ready(b)
    decreases n
  {
    if n == 0 then end == (b, task)
    else
      && ShouldResume(st, s, cfg, b, now, task)
      && var (b', task') := Resume(st, s, cfg, b, now, task.next, cfg.patience);
         Alive(task') && Resumed(st, s, cfg, b', now, task', n - 1, end)
  }

  /** A turn of no more resumptions than the limit runs its course. */
  lemma {:induction false} TurnWithinLimit<S>(st: Strategy<S>, s: Session, cfg: Config, b: Book, now: int, task: Task<S>, done: nat,
                                              n: nat, end: (Book, Task<S>))
    requires Ready(b) && done + n <= cfg.maxResumes
    requires Resumed(st, s, cfg, b, now, task, n, end) && Idles(st, s, cfg, end.0, now, end.1)
    ensures Wake(st, s, cfg, b, now, task, done) == end
    decreases n
  {
    hide Ready, Resume, Holds;
    if n > 0 {
      var (b', task') := Resume(st, s, cfg, b, now, task.next, cfg.patience);
      TurnWithinLimit(st, s, cfg, b', now, task', done + 1, n - 1, end);
    }
  }

  /** The first resumption past the limit, and no earlier one, throws: the strategy is spinning. */
  lemma SpinningThrows<S>(st: Strategy<S>, s: Session, cfg: Config, b: Book, now: int, task: Task<S>, end: (Book, Task<S>))
    requires Ready(b) && cfg.maxResumes >= 0 && Resumed(st, s, cfg, b, now, task, cfg.maxResumes + 1, end)
    ensures Wake(st, s, cfg, b, now, task, 0) == (end.0, Threw)
  {
    hide Ready, Wake, Resumed;
    TurnOverLimit(st, s, cfg, b, now, task, 0, cfg.maxResumes + 1, end);
  }

  /** And if a resumption ends the strategy by a throw, or it never suspends, that is how the turn ends. */
  lemma {:induction false} TurnFails<S>(st: Strategy<S>, s: Session, cfg: Config, b: Book, now: int, task: Task<S>, done: nat,
                                        n: nat, end: (Book, Task<S>))
    requires Ready(b) && Ready(end.0) && done + n <= cfg.maxResumes && Resumed(st, s, cfg, b, now, task, n, end)
    requires ShouldResume(st, s, cfg, end.0, now, end.1) && !Alive(Resume(st, s, cfg, end.0, now, end.1.next, cfg.patience).1)
    ensures Wake(st, s, cfg, b, now, task, done) == Resume(st, s, cfg, end.0, now, end.1.next, cfg.patience)
    decreases n
  {
    hide Ready, Resume, Holds;
    if n > 0 {
      var (b', task') := Resume(st, s, cfg, b, now, task.next, cfg.patience);
      TurnFails(st, s, cfg, b', now, task', done + 1, n - 1, end);
    }
  }

  lemma {:induction false} TurnOverLimit<S>(st: Strategy<S>, s: Session, cfg: Config, b: Book, now: int, task: Task<S>, done: nat,
                                            n: nat, end: (Book, Task<S>))
    requires Ready(b) && n > 0 && done + n == cfg.maxResumes + 1 && Resumed(st, s, cfg, b, now, task, n, end)
    ensures Wake(st, s, cfg, b, now, task, done) == (end.0, Threw)
    decreases n
  {
    hide Ready, Resume, Holds;
    var (b', task') := Resume(st, s, cfg, b, now, task.next, cfg.patience);
    if n > 1 {
      TurnOverLimit(st, s, cfg, b', now, task', done + 1, n - 1, end);
    } else {
      assert Resumed(st, s, cfg, b', now, task', 0, end);
    }
  }

  /** Where the strategy stands is where its own code left it: suspended on what it asked to wait for,
      ended where it ended. */
  ghost predicate Spoke<S(!new)>(st: Strategy<S>, task: Task<S>) {
    match task
    case Waiting(cond, next) => exists x :: st.move(x) == Await(cond, next)
    case Returned => exists x :: st.move(x) == Finish
    case _ => true
  }

  lemma {:induction false} ResumptionSpeaks<S(!new)>(st: Strategy<S>, s: Session, cfg: Config, b: Book, now: int, x: S, moves: nat)
    requires Ready(b)
    ensures Spoke(st, Resume(st, s, cfg, b, now, x, moves).1)
    decreases moves
  {
    hide Ready, AnswerTo, Apply;
    if moves > 0 {
      match st.move(x)
      case Ask(q, andThen) => ResumptionSpeaks(st, s, cfg, b, now, andThen(AnswerTo(s, cfg, b, now, q)), moves - 1);
      case Act(a, onReply) =>
        var (b', reply) := Apply(b, s.registry, a, now);
        ResumptionSpeaks(st, s, cfg, b', now, onReply(reply), moves - 1);
      case Await(_, _) =>
      case Finish =>
      case Throw =>
    }
  }

  /** One stretch of strategy code throws only because the code did, and hangs only while it was still
      asking or acting. */
  lemma {:induction false} EndIsSpoken<S(!new)>(st: Strategy<S>, s: Session, cfg: Config, b: Book, now: int, x: S, moves: nat)
    requires Ready(b)
    ensures var task := Resume(st, s, cfg, b, now, x, moves).1;
            && (task.Threw? ==> exists y :: st.move(y).Throw?)
            && (task.Hung? && moves > 0 ==> exists y :: st.move(y).Ask? || st.move(y).Act?)
    decreases moves
  {
    hide Ready, AnswerTo, Apply;
    if moves > 0 {
      match st.move(x)
      case Ask(q, andThen) => EndIsSpoken(st, s, cfg, b, now, andThen(AnswerTo(s, cfg, b, now, q)), moves - 1);
      case Act(a, onReply) =>
        var (b', reply) := Apply(b, s.registry, a, now);
        EndIsSpoken(st, s, cfg, b', now, onReply(reply), moves - 1);
      case Await(_, _) =>
      case Finish =>
      case Throw =>
    }
  }

  /** The strategy is entered before any data: it stands where its code first suspended. */
  lemma EntrySpeaks<S(!new)>(st: Strategy<S>, s: Session, cfg: Config)
    ensures Spoke(st, Started(st, s, cfg).task)
  {
    ResumptionSpeaks(st, s, cfg, EmptyBook(cfg.delay), 0, st.start, cfg.patience);
  }

  lemma {:induction false} TurnSpeaks<S(!new)>(st: Strategy<S>, s: Session, cfg: Config, b: Book, now: int, task: Task<S>, done: nat)
    requires Ready(b) && Spoke(st, task)
    ensures Spoke(st, Wake(st, s, cfg, b, now, task, done).1)
    decreases cfg.maxResumes - done
  {
    hide Ready, Resume, Holds, Spoke;
    SilentSpeaks(st);
    if ShouldResume(st, s, cfg, b, now, task) {
      ResumptionSpeaks(st, s, cfg, b, now, task.next, cfg.patience);
      var (b', task') := Resume(st, s, cfg, b, now, task.next, cfg.patience);
      if Alive(task') && done + 1 <= cfg.maxResumes {
        TurnSpeaks(st, s, cfg, b', now, task', done + 1);
      }
    }
  }

  lemma SilentSpeaks<S(!new)>(st: Strategy<S>)
    ensures Spoke(st, Threw) && Spoke(st, Hung)
  {
  }

  /** At every point of every replay. */
  lemma {:induction false} EveryRunSpeaks<S(!new)>(st: Strategy<S>, s: Session, cfg: Config, start: Replay<S>, steps: seq<int>, k: nat)
    requires k <= |steps| && Ready(start.book) && Spoke(st, start.task)
    ensures Spoke(st, RunFrom(st, s, cfg, start, steps, k).task)
  {
    hide Ready, Serve, Wake, Spoke;
    SilentSpeaks(st);
    if k > 0 {
      EveryRunSpeaks(st, s, cfg, start, steps, k - 1);
      var run := RunFrom(st, s, cfg, start, steps, k - 1);
      if Alive(run.task) && run.clock <= steps[k - 1] {
        TurnSpeaks(st, s, cfg, Serve(run.book, cfg, AsOf(s, steps[k - 1])), steps[k - 1], run.task, 0);
      }
    }
  }

  /** A condition holds, or does not, because its own code said so. */
  lemma {:induction false} VerdictIsSpoken<S(!new)>(st: Strategy<S>, s: Session, cfg: Config, b: Book, now: int, x: S, looks: nat)
    ensures var v := Holds(st, s, cfg, b, now, x, looks); v.Some? ==> exists y :: st.look(y) == Verdict(v.value)
    decreases looks
  {
    hide AnswerTo;
    if looks > 0 {
      match st.look(x)
      case Peek(q, andThen) => VerdictIsSpoken(st, s, cfg, b, now, andThen(AnswerTo(s, cfg, b, now, q)), looks - 1);
      case Verdict(_) =>
    }
  }

  // ----- every step ---------------------------------------------------------------------------

  /** How a step went: `woken` is the book the strategy was given, and both halves of the step did what
      they owed. */
  ghost predicate DutyDone<S>(st: Strategy<S>, s: Session, cfg: Config, before: Replay<S>, after: Replay<S>, t: int, woken: Book) {
    var m := AsOf(s, t);
    && Ready(woken) && RulesServed(woken, m) && OrdersServed(woken, cfg.pol, m)
    && after == (var (b, task) := Wake(st, s, cfg, woken, t, before.task, 0); Replay(b, task, t))
    && Idles(st, s, cfg, after.book, t, after.task)
    && (Idles(st, s, cfg, woken, t, before.task) ==>
          after.book == woken && RulesServed(after.book, m) && OrdersServed(after.book, cfg.pol, m))
  }

  lemma StepDuty<S>(st: Strategy<S>, s: Session, cfg: Config, run: Replay<S>, t: int, base: nat) returns (woken: Book)
    requires Ready(run.book) && Good(run.book, s, cfg, run.clock, base)
    requires run.clock <= t ==> run.clock < t || run.book.pending == []
    requires Alive(Step(st, s, cfg, run, t).task)
    ensures DutyDone(st, s, cfg, run, Step(st, s, cfg, run, t), t, woken)
  {
    hide Good, Serve, Wake, RulesServed, OrdersServed, Ready, Idles;
    AliveBefore(st, s, cfg, run, t);
    woken := Serve(run.book, cfg, AsOf(s, t));
    ServeServes(run.book, s, cfg, run.clock, t, base);
    TurnIsComplete(st, s, cfg, woken, t, run.task, 0);
    if Idles(st, s, cfg, woken, t, run.task) {
      NoTurnWithoutCause(st, s, cfg, woken, t, run.task);
    }
  }

  /** At every step of every session, entered in any state a run can be in, the engine does its duty: every
      order that can trade has traded and every rule that has reached its limit has fired before the
      strategy is given its turn, and its turn lasts exactly as long as what it awaits holds. */
  lemma EveryStepServes<S>(st: Strategy<S>, s: Session, cfg: Config, start: Replay<S>, steps: seq<int>, k: nat, base: nat)
    returns (woken: Book)
    requires 0 < k <= |steps| && Enterable(start, steps) && Good(start.book, s, cfg, start.clock, base)
    requires Alive(RunFrom(st, s, cfg, start, steps, k).task)
    ensures DutyDone(st, s, cfg, RunFrom(st, s, cfg, start, steps, k - 1), RunFrom(st, s, cfg, start, steps, k), steps[k - 1], woken)
  {
    hide Good, Step, DutyDone;
    var run := RunFrom(st, s, cfg, start, steps, k - 1);
    RunGood(st, s, cfg, start, steps, k - 1, base);
    AliveBefore(st, s, cfg, run, steps[k - 1]);
    woken := StepDuty(st, s, cfg, run, steps[k - 1], base);
  }

  /** The same of a single replay. */
  lemma EveryReplayServes<S>(st: Strategy<S>, s: Session, cfg: Config, k: nat) returns (woken: Book)
    requires Timed(s) && 0 < k <= |Timeline(s)| && Alive(RunUpto(st, s, cfg, Timeline(s), k).task)
    ensures DutyDone(st, s, cfg, RunUpto(st, s, cfg, Timeline(s), k - 1), RunUpto(st, s, cfg, Timeline(s), k), Timeline(s)[k - 1], woken)
  {
    hide Good, DutyDone, Timeline, Started;
    StartEnterable(st, s, cfg);
    woken := EveryStepServes(st, s, cfg, Started(st, s, cfg), Timeline(s), k, 0);
  }

  /** And of every session of a multi-session run. */
  lemma EverySessionServes<S>(st: Strategy<S>, plan: Plan, dates: seq<int>, load: int -> Option<Session>,
                              registry: seq<InstrumentSpec>, k: nat, s: Session, j: nat) returns (woken: Book)
    requires Source(dates, load, registry) && k < |dates| && load(dates[k]) == Some(s) && 0 < j <= |Timeline(s)|
    requires Alive(RunFrom(st, s, plan.cfg, Days(st, plan, dates, load, k).run, Timeline(s), j).task)
    ensures var start := Days(st, plan, dates, load, k).run;
            DutyDone(st, s, plan.cfg, RunFrom(st, s, plan.cfg, start, Timeline(s), j - 1),
                     RunFrom(st, s, plan.cfg, start, Timeline(s), j), Timeline(s)[j - 1], woken)
  {
    hide Days, Good, DutyDone, Timeline, RunFrom, Timed, Enterable;
    var start := Days(st, plan, dates, load, k).run;
    AliveInSession(st, s, plan.cfg, start, Timeline(s), j);
    DayEntered(st, plan, dates, load, registry, k, s);
    woken := EveryStepServes(st, s, plan.cfg, start, Timeline(s), j, |start.book.trades|);
  }
}
