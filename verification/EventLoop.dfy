/** The replay of one session: advance the clock, fill, run the rules, then let the strategy speak. */
module EventLoop {
  import opened Types
  import opened Books
  import opened Sessions
  import opened Events
  import opened Bars
  import opened Indicators
  import opened Strategies
  import opened PortfolioObject

  /** Where the strategy stands: suspended, returned, threw (or made the engine throw), or still
      running after `patience` moves without suspending. */
  datatype Task<+S> = Waiting(cond: Option<S>, next: S) | Returned | Threw | Hung

  datatype Replay<+S> = Replay(book: Book, task: Task<S>, clock: int)

  predicate Alive<S>(task: Task<S>) {
    task.Waiting? || task.Returned?
  }

  // ----- strategy code ------------------------------------------------------------------------

  /** Runs strategy code from state `x` until it suspends or ends. */
  function Resume<S>(st: Strategy<S>, s: Session, cfg: Config, b: Book, now: int, x: S, moves: nat): (r: (Book, Task<S>))
    requires Ready(b)
    ensures Ready(r.0)
    decreases moves
  {
    if moves == 0 then (b, Hung)
    else match st.move(x)
      case Ask(q, andThen) => Resume(st, s, cfg, b, now, andThen(AnswerTo(s, cfg, b, now, q)), moves - 1)
      case Act(a, onReply) =>
        var (b', reply) := Apply(b, s.registry, a, now);
        Resume(st, s, cfg, b', now, onReply(reply), moves - 1)
      case Await(cond, next) => (b, Waiting(cond, next))
      case Finish => (b, Returned)
      case Throw => (b, Threw)
  }

  /** Evaluates a condition; nothing if it never reaches a verdict. */
  function Holds<S>(st: Strategy<S>, s: Session, cfg: Config, b: Book, now: int, x: S, looks: nat): Option<bool>
    decreases looks
  {
    if looks == 0 then None
    else match st.look(x)
      case Peek(q, andThen) => Holds(st, s, cfg, b, now, andThen(AnswerTo(s, cfg, b, now, q)), looks - 1)
      case Verdict(holds) => Some(holds)
  }

  /** Resumes the strategy as long as what it awaits holds; `done` resumptions have happened this step. */
  function Wake<S>(st: Strategy<S>, s: Session, cfg: Config, b: Book, now: int, task: Task<S>, done: nat): (r: (Book, Task<S>))
    requires Ready(b)
    ensures Ready(r.0)
    decreases cfg.maxResumes - done
  {
    if !task.Waiting? || task.cond.None? then (b, task)
    else match Holds(st, s, cfg, b, now, task.cond.value, cfg.patience)
      case None => (b, Hung)
      case Some(false) => (b, task)
      case Some(true) =>
        var (b', task') := Resume(st, s, cfg, b, now, task.next, cfg.patience);
        if !Alive(task') then (b', task')
        else if done + 1 > cfg.maxResumes then (b', Threw)
        else Wake(st, s, cfg, b', now, task', done + 1)
  }

  // ----- the loop -----------------------------------------------------------------------------

  /** Fills first, then marks, then rules: what the engine does before any strategy code at a step. */
  function Serve(b: Book, cfg: Config, m: Market): (b': Book)
    requires Ready(b)
    ensures Ready(b')
  {
    ProcessRiskRules(Marked(Filled(b, cfg, m), cfg, m), m)
  }

  function Marked(b: Book, cfg: Config, m: Market): (b': Book)
    requires Ready(b)
    ensures Ready(b')
  {
    if cfg.carryMarks then RefreshMarks(b, m) else b
  }

  function Filled(b: Book, cfg: Config, m: Market): (b': Book)
    requires Ready(b)
    ensures Ready(b')
  {
    FillsStayReady(b, cfg.pol, m, |b.pending|);
    ProcessPending(b, cfg.pol, m)
  }

  lemma {:induction false} FillsStayReady(b: Book, pol: Policy, m: Market, k: nat)
    requires Ready(b) && k <= |b.pending|
    ensures var (c, still) := ProcessUpto(b, pol, m, k); Addressed(b, still) && c.rules == b.rules
  {
    if k > 0 {
      FillsStayReady(b, pol, m, k - 1);
    }
  }

  function Step<S>(st: Strategy<S>, s: Session, cfg: Config, run: Replay<S>, t: int): (r: Replay<S>)
    requires Ready(run.book)
    ensures Ready(r.book)
  {
    if !Alive(run.task) then run
    else if t < run.clock then run.(task := Threw)
    else
      var (b, task) := Wake(st, s, cfg, Serve(run.book, cfg, AsOf(s, t)), t, run.task, 0);
      Replay(b, task, t)
  }

  /** The strategy is entered once, before any data, with the clock at zero. */
  function Started<S>(st: Strategy<S>, s: Session, cfg: Config): (r: Replay<S>)
    ensures Ready(r.book)
  {
    var (b, task) := Resume(st, s, cfg, EmptyBook(cfg.delay), 0, st.start, cfg.patience);
    Replay(b, task, 0)
  }

  /** The first `k` steps of a session entered in state `start`. */
  function RunFrom<S>(st: Strategy<S>, s: Session, cfg: Config, start: Replay<S>, steps: seq<int>, k: nat): (r: Replay<S>)
    requires k <= |steps| && Ready(start.book)
    ensures Ready(r.book)
  {
    if k == 0 then start else Step(st, s, cfg, RunFrom(st, s, cfg, start, steps, k - 1), steps[k - 1])
  }

  lemma {:induction false} DeadStays<S>(st: Strategy<S>, s: Session, cfg: Config, start: Replay<S>, steps: seq<int>, k: nat)
    requires k <= |steps| && Ready(start.book) && !Alive(start.task)
    ensures RunFrom(st, s, cfg, start, steps, k) == start
  {
    if k > 0 {
      DeadStays(st, s, cfg, start, steps, k - 1);
    }
  }

  function RunUpto<S>(st: Strategy<S>, s: Session, cfg: Config, steps: seq<int>, k: nat): (r: Replay<S>)
    requires k <= |steps|
    ensures Ready(r.book)
  {
    RunFrom(st, s, cfg, Started(st, s, cfg), steps, k)
  }

  function RunAll<S>(st: Strategy<S>, s: Session, cfg: Config): (r: Replay<S>)
    ensures Ready(r.book)
  {
    RunUpto(st, s, cfg, Timeline(s), |Timeline(s)|)
  }

  // ----- the engine ---------------------------------------------------------------------------

  /** The replay clock never moves backwards. */
  class ReplayClock {
    var now: int

    constructor ()
      ensures now == 0
    {
      now := 0;
    }

    method AdvanceTo(t: int) returns (ok: bool)
      modifies this
      ensures ok == (t >= old(now)) && now == if ok then t else old(now)
    {
      if t < now { return false; }
      now := t;
      ok := true;
    }
  }

  /** One action against the portfolio object. */
  method Perform(portfolio: Portfolio, registry: seq<InstrumentSpec>, a: Action, now: int) returns (reply: Reply)
    requires portfolio.Valid() && !portfolio.closingFromRule
    modifies portfolio
    ensures portfolio.Valid() && !portfolio.closingFromRule
    ensures (portfolio.Contents(), reply) == Apply(old(portfolio.Contents()), registry, a, now)
  {
    match a
    case TradeLots(side, legs, lots, name) =>
      if legs == [] { return NoLegs; }
      var qty := Contracts(registry, legs, lots);
      if qty.None? { return Rejected; }
      var id := portfolio.SubmitOpen(name, legs, side, qty.value, now);
      return Opened(id.value);
    case ClosePosition(p) =>
      if p < 0 { return Rejected; }
      var known := portfolio.SubmitClose(p, now);
      return if known then Accepted else Rejected;
    case CloseLeg(p, i) =>
      if p < 0 || i < 0 { return Rejected; }
      var known := portfolio.SubmitCloseLeg(p, i, now);
      return if known then Accepted else Rejected;
    case Attach(kind, p, leg) =>
      if p < 0 { return Rejected; }
      var ok := portfolio.AttachRule(kind, p, leg);
      return if ok then Accepted else Rejected;
  }

  /** The engine's accessors: each question is answered by the loop that the source runs for it. */
  method Consult(s: Session, cfg: Config, portfolio: Portfolio, now: int, q: Query) returns (a: Answer)
    requires Sorted(s)
    ensures a == AnswerTo(s, cfg, portfolio.Contents(), now, q)
  {
    match q
    case Clock => a := Now(now);
    case QuoteBack(id, back) =>
      if back < 0 { return Refused; }
      SortedColumn(s, id);
      var n := RowsUpto(Quotes(s, id), now);
      a := Quoted(if back >= n then None else Some(Quotes(s, id)[n - 1 - back]));
    case HasQuote(id) =>
      SortedColumn(s, id);
      var idx := FindAtOrBefore(Quotes(s, id), now);
      a := Flag(idx.Some?);
    case CompletedBar(id, seconds, source, lag, back) =>
      a := ConsultCompleted(s, cfg, now, q);
    case FormingBar(id, seconds, source, lag) =>
      a := ConsultForming(s, cfg, now, q);
    case StudyValue(study, id, seconds, source, lag, back) =>
      a := ConsultStudy(s, cfg, now, q);
    case ReadBook =>
      a := BookRead(Book(portfolio.delay, portfolio.positions, portfolio.pending, portfolio.rules, portfolio.trades,
                         portfolio.realized, portfolio.costs, portfolio.illiquid, portfolio.oversized, portfolio.cancelled,
                         portfolio.settledLegs, portfolio.rulesFired, 0));
  }

  method ConsultCompleted(s: Session, cfg: Config, now: int, q: Query) returns (a: Answer)
    requires Sorted(s) && q.CompletedBar?
    ensures forall b :: a == AnswerTo(s, cfg, b, now, q)
  {
    var g := GridFor(s, cfg, q.seconds, q.source);
    if q.seconds <= 0 || q.back < 0 || Expired(g, now - q.lag) { return Refused; }
    SortedColumn(s, q.id);
    var bars := Build(g, Quotes(s, q.id));
    BarsLaid(g, Quotes(s, q.id));
    var k := CountKnown(g, bars, now - q.lag);
    a := BarRead(if q.back >= k then None else Some(bars[k - 1 - q.back]));
  }

  method ConsultForming(s: Session, cfg: Config, now: int, q: Query) returns (a: Answer)
    requires Sorted(s) && q.FormingBar?
    ensures forall b :: a == AnswerTo(s, cfg, b, now, q)
  {
    var g := GridFor(s, cfg, q.seconds, q.source);
    if q.seconds <= 0 || Expired(g, now - q.lag) { return Refused; }
    SortedColumn(s, q.id);
    var bars := Build(g, Quotes(s, q.id));
    BarsLaid(g, Quotes(s, q.id));
    var bar := Reaggregate(g, bars, Quotes(s, q.id), now - q.lag);
    a := BarRead(bar);
  }

  method ConsultStudy(s: Session, cfg: Config, now: int, q: Query) returns (a: Answer)
    requires Sorted(s) && q.StudyValue?
    ensures forall b :: a == AnswerTo(s, cfg, b, now, q)
  {
    hide Laid, ReadAt, BarsOf, Quotes, TimeSorted, Sorted, Expired;
    var g := GridFor(s, cfg, q.seconds, q.source);
    if q.seconds <= 0 || q.back < 0 || q.study.period == 0 || Expired(g, now - q.lag) { return Refused; }
    SortedColumn(s, q.id);
    var bars := Build(g, Quotes(s, q.id));
    BarsLaid(g, Quotes(s, q.id));
    var value := ReadStudy(g, q.study, cfg.root, bars, now - q.lag, q.back);
    a := Level(value);
  }

  method ReadStudy(g: Grid, study: Study, root: real -> real, bars: seq<Bar>, now: int, back: nat) returns (value: Option<real>)
    requires study.period > 0 && g.interval > 0 && Laid(g, bars)
    ensures value == ReadAt(study, root, bars, now, back)
  {
    var k := CountKnown(g, bars, now);
    if back >= k { return None; }
    var values := Compute(study, root, Closes(bars));
    value := values[k - 1 - back];
  }

  /** The whole series of an indicator. */
  method Compute(study: Study, root: real -> real, xs: seq<real>) returns (values: seq<Option<real>>)
    requires study.period > 0
    ensures |values| == |xs| && forall i :: 0 <= i < |xs| ==> values[i] == ValueAt(study, root, xs, i)
  {
    match study
    case MovingAverage(p) => values := Sma(xs, p);
    case Middle(p) =>
      var out := Bollinger(xs, p, 0.0, root);
      values := seq(|out|, i requires 0 <= i < |out| => if out[i].None? then None else Some(out[i].value.middle));
    case Upper(p, k) =>
      var out := Bollinger(xs, p, k, root);
      values := seq(|out|, i requires 0 <= i < |out| => if out[i].None? then None else Some(out[i].value.upper));
    case Lower(p, k) =>
      var out := Bollinger(xs, p, k, root);
      values := seq(|out|, i requires 0 <= i < |out| => if out[i].None? then None else Some(out[i].value.lower));
  }

  method ResumeTask<S>(st: Strategy<S>, s: Session, cfg: Config, portfolio: Portfolio, now: int, start: S) returns (task: Task<S>)
    requires Sorted(s) && portfolio.Valid() && !portfolio.closingFromRule
    modifies portfolio
    ensures portfolio.Valid() && !portfolio.closingFromRule
    ensures (portfolio.Contents(), task) == Resume(st, s, cfg, old(portfolio.Contents()), now, start, cfg.patience)
  {
    hide AnswerTo, Apply, Started, Step;
    var x := start;
    var moves := cfg.patience;
    while moves > 0
      invariant portfolio.Valid() && !portfolio.closingFromRule
      invariant Resume(st, s, cfg, portfolio.Contents(), now, x, moves)
             == Resume(st, s, cfg, old(portfolio.Contents()), now, start, cfg.patience)
      decreases moves
    {
      match st.move(x) {
        case Ask(q, andThen) =>
          var a := Consult(s, cfg, portfolio, now, q);
          x := andThen(a);
        case Act(a, onReply) =>
          var reply := Perform(portfolio, s.registry, a, now);
          x := onReply(reply);
        case Await(cond, next) => return Waiting(cond, next);
        case Finish => return Returned;
        case Throw => return Threw;
      }
      moves := moves - 1;
    }
    return Hung;
  }

  method Evaluate<S>(st: Strategy<S>, s: Session, cfg: Config, portfolio: Portfolio, now: int, cond: S) returns (r: Option<bool>)
    requires Sorted(s)
    ensures r == Holds(st, s, cfg, portfolio.Contents(), now, cond, cfg.patience)
  {
    hide AnswerTo;
    var x := cond;
    var looks := cfg.patience;
    while looks > 0
      invariant Holds(st, s, cfg, portfolio.Contents(), now, x, looks) == Holds(st, s, cfg, portfolio.Contents(), now, cond, cfg.patience)
      decreases looks
    {
      match st.look(x) {
        case Peek(q, andThen) =>
          var a := Consult(s, cfg, portfolio, now, q);
          x := andThen(a);
        case Verdict(holds) => return Some(holds);
      }
      looks := looks - 1;
    }
    return None;
  }

  /** The inner loop of a step: resume while the awaited condition holds. */
  method WakeTask<S>(st: Strategy<S>, s: Session, cfg: Config, portfolio: Portfolio, now: int, task0: Task<S>) returns (task: Task<S>)
    requires Sorted(s) && portfolio.Valid() && !portfolio.closingFromRule
    modifies portfolio
    ensures portfolio.Valid() && !portfolio.closingFromRule
    ensures (portfolio.Contents(), task) == Wake(st, s, cfg, old(portfolio.Contents()), now, task0, 0)
  {
    task := task0;
    var done := 0;
    while task.Waiting? && task.cond.Some?
      invariant portfolio.Valid() && !portfolio.closingFromRule && done >= 0
      invariant Wake(st, s, cfg, portfolio.Contents(), now, task, done) == Wake(st, s, cfg, old(portfolio.Contents()), now, task0, 0)
      decreases cfg.maxResumes - done
    {
      var holds := Evaluate(st, s, cfg, portfolio, now, task.cond.value);
      if holds.None? { return Hung; }
      if !holds.value { return task; }
      task := ResumeTask(st, s, cfg, portfolio, now, task.next);
      if !Alive(task) { return task; }
      done := done + 1;
      if done > cfg.maxResumes { return Threw; }
    }
  }

  /** One timestamp of the loop. */
  method TakeStep<S>(st: Strategy<S>, s: Session, cfg: Config, portfolio: Portfolio, clock: ReplayClock, task0: Task<S>, t: int)
    returns (task: Task<S>)
    requires Sorted(s) && portfolio.Valid() && !portfolio.closingFromRule && portfolio.pol == cfg.pol && Alive(task0)
    modifies portfolio, clock
    ensures portfolio.Valid() && !portfolio.closingFromRule
    ensures Replay(portfolio.Contents(), task, clock.now)
         == Step(st, s, cfg, Replay(old(portfolio.Contents()), task0, old(clock.now)), t)
  {
    var ok := clock.AdvanceTo(t);
    if !ok { return Threw; }
    var m := AsOf(s, t);
    portfolio.ProcessPending(m);
    if cfg.carryMarks { portfolio.RefreshMarks(m); }
    portfolio.ProcessRiskRules(m);
    task := WakeTask(st, s, cfg, portfolio, t, task0);
  }

  lemma RunFromNone<S>(st: Strategy<S>, s: Session, cfg: Config, run: Replay<S>, steps: seq<int>)
    requires Ready(run.book)
    ensures RunFrom(st, s, cfg, run, steps, 0) == run
  {
  }

  /** One more step; a strategy that has ended takes none. */
  lemma RunFromNext<S>(st: Strategy<S>, s: Session, cfg: Config, run: Replay<S>, steps: seq<int>, k: nat)
    requires k < |steps| && Ready(run.book)
    ensures var before := RunFrom(st, s, cfg, run, steps, k);
            RunFrom(st, s, cfg, run, steps, k + 1) == (if Alive(before.task) then Step(st, s, cfg, before, steps[k]) else before)
  {
  }

  /** All the steps of a session, from wherever the portfolio and the strategy stand. */
  method Walk<S>(st: Strategy<S>, s: Session, cfg: Config, portfolio: Portfolio, clock: ReplayClock, task0: Task<S>, steps: seq<int>)
    returns (task: Task<S>)
    requires Sorted(s) && portfolio.Valid() && !portfolio.closingFromRule && portfolio.pol == cfg.pol
    modifies portfolio, clock
    ensures portfolio.Valid() && !portfolio.closingFromRule
    ensures Replay(portfolio.Contents(), task, clock.now)
         == RunFrom(st, s, cfg, Replay(old(portfolio.Contents()), task0, old(clock.now)), steps, |steps|)
  {
    hide Step, RunFrom;
    task := task0;
    ghost var start := Replay(portfolio.Contents(), task0, clock.now);
    RunFromNone(st, s, cfg, start, steps);
    var k := 0;
    while k < |steps|
      invariant 0 <= k <= |steps| && portfolio.Valid() && !portfolio.closingFromRule
      invariant Replay(portfolio.Contents(), task, clock.now) == RunFrom(st, s, cfg, start, steps, k)
    {
      RunFromNext(st, s, cfg, start, steps, k);
      if Alive(task) {
        task := TakeStep(st, s, cfg, portfolio, clock, task, steps[k]);
      }
      k := k + 1;
    }
  }

  /** Replays one session: the portfolio at the end, and how the strategy ended. */
  method RunSession<S>(st: Strategy<S>, s: Session, cfg: Config) returns (portfolio: Portfolio, task: Task<S>)
    requires Sorted(s) && cfg.delay >= 0
    requires (s.order != [] ==> IsEventOrder(s, s.order)) && (s.timeline != [] ==> IsTimeline(s, s.timeline))
    requires forall t :: Prints(s, t) ==> t > NO_TIME
    ensures fresh(portfolio)
    ensures portfolio.Contents() == RunAll(st, s, cfg).book && task == RunAll(st, s, cfg).task
  {
    var clock := new ReplayClock();
    portfolio := new Portfolio(cfg.pol, cfg.delay);
    task := ResumeTask(st, s, cfg, portfolio, 0, st.start);
    var steps := ReplaySteps(s);
    TimelineIs(s, steps);
    assert Replay(portfolio.Contents(), task, clock.now) == Started(st, s, cfg);
    task := Walk(st, s, cfg, portfolio, clock, task, steps);
  }
}
