/** The theorem behind the look-ahead detector: what a strategy does up to a cutoff cannot depend on
    any observation after it. */
module Lookahead {
  import opened Types
  import opened Books
  import opened Sessions
  import opened Events
  import opened Strategies
  import opened EventLoop
  import opened RunProperties
  import opened PortfolioObject

  // ----- nothing before the cutoff can tell the sessions apart --------------------------------

  lemma {:induction false} ResumeCausal<S>(st: Strategy<S>, s: Session, cfg: Config, b: Book, now: int, x: S, moves: nat, cutoff: int)
    requires Sorted(s) && Ready(b) && now <= cutoff
    ensures Resume(st, Truncate(s, cutoff), cfg, b, now, x, moves) == Resume(st, s, cfg, b, now, x, moves)
    decreases moves
  {
    hide Sorted, AnswerTo, Apply, Ready;
    if moves > 0 {
      match st.move(x)
      case Ask(q, andThen) =>
        AnswerCausal(s, cfg, b, now, q, cutoff);
        ResumeCausal(st, s, cfg, b, now, andThen(AnswerTo(s, cfg, b, now, q)), moves - 1, cutoff);
      case Act(a, onReply) =>
        var (b', reply) := Apply(b, s.registry, a, now);
        ResumeCausal(st, s, cfg, b', now, onReply(reply), moves - 1, cutoff);
      case Await(_, _) =>
      case Finish =>
      case Throw =>
    }
  }

  lemma {:induction false} HoldsCausal<S>(st: Strategy<S>, s: Session, cfg: Config, b: Book, now: int, x: S, looks: nat, cutoff: int)
    requires Sorted(s) && now <= cutoff
    ensures Holds(st, Truncate(s, cutoff), cfg, b, now, x, looks) == Holds(st, s, cfg, b, now, x, looks)
    decreases looks
  {
    hide Sorted, AnswerTo;
    if looks > 0 {
      match st.look(x)
      case Peek(q, andThen) =>
        AnswerCausal(s, cfg, b, now, q, cutoff);
        HoldsCausal(st, s, cfg, b, now, andThen(AnswerTo(s, cfg, b, now, q)), looks - 1, cutoff);
      case Verdict(_) =>
    }
  }

  lemma {:induction false} WakeCausal<S>(st: Strategy<S>, s: Session, cfg: Config, b: Book, now: int, task: Task<S>, done: nat, cutoff: int)
    requires Sorted(s) && Ready(b) && now <= cutoff
    ensures Wake(st, Truncate(s, cutoff), cfg, b, now, task, done) == Wake(st, s, cfg, b, now, task, done)
    decreases cfg.maxResumes - done
  {
    hide Sorted, Ready, Resume, Holds;
    if task.Waiting? && task.cond.Some? {
      HoldsCausal(st, s, cfg, b, now, task.cond.value, cfg.patience, cutoff);
      if Holds(st, s, cfg, b, now, task.cond.value, cfg.patience) == Some(true) {
        ResumeCausal(st, s, cfg, b, now, task.next, cfg.patience, cutoff);
        var (b', task') := Resume(st, s, cfg, b, now, task.next, cfg.patience);
        if Alive(task') && done + 1 <= cfg.maxResumes {
          WakeCausal(st, s, cfg, b', now, task', done + 1, cutoff);
        }
      }
    }
  }

  lemma StepCausal<S>(st: Strategy<S>, s: Session, cfg: Config, run: Replay<S>, t: int, cutoff: int)
    requires Sorted(s) && Ready(run.book) && t <= cutoff
    ensures Step(st, Truncate(s, cutoff), cfg, run, t) == Step(st, s, cfg, run, t)
  {
    hide Sorted, Ready, Serve, Wake;
    AsOfTruncated(s, t, cutoff);
    if Alive(run.task) {
      WakeCausal(st, s, cfg, Serve(run.book, cfg, AsOf(s, t)), t, run.task, 0, cutoff);
    }
  }

  lemma StartCausal<S>(st: Strategy<S>, s: Session, cfg: Config, cutoff: int)
    requires Sorted(s) && 0 <= cutoff
    ensures Started(st, Truncate(s, cutoff), cfg) == Started(st, s, cfg)
  {
    hide Sorted, Resume;
    ResumeCausal(st, s, cfg, EmptyBook(cfg.delay), 0, st.start, cfg.patience, cutoff);
  }

  /** Steps up to the cutoff, entered in any state, cannot tell the clipped session from the full one. */
  lemma {:induction false} RunCausal<S>(st: Strategy<S>, s: Session, cfg: Config, start: Replay<S>, steps: seq<int>, k: nat, cutoff: int)
    requires Sorted(s) && Ready(start.book) && k <= |steps| && forall j :: 0 <= j < k ==> steps[j] <= cutoff
    ensures RunFrom(st, Truncate(s, cutoff), cfg, start, steps[..k], k) == RunFrom(st, s, cfg, start, steps, k)
  {
    hide Sorted, Step;
    if k > 0 {
      RunCausal(st, s, cfg, start, steps, k - 1, cutoff);
      RunPrefix(st, Truncate(s, cutoff), cfg, start, steps[..k], k - 1);
      assert steps[..k][..k - 1] == steps[..k - 1];
      StepCausal(st, s, cfg, RunFrom(st, s, cfg, start, steps, k - 1), steps[k - 1], cutoff);
    }
  }

  lemma {:induction false} RunPrefix<S>(st: Strategy<S>, s: Session, cfg: Config, start: Replay<S>, steps: seq<int>, k: nat)
    requires Ready(start.book) && k <= |steps|
    ensures RunFrom(st, s, cfg, start, steps[..k], k) == RunFrom(st, s, cfg, start, steps, k)
    decreases k
  {
    hide Step;
    if k > 0 {
      RunPrefix(st, s, cfg, start, steps, k - 1);
      RunPrefix(st, s, cfg, start, steps[..k], k - 1);
      assert steps[..k][..k - 1] == steps[..k - 1];
    }
  }

  // ----- comparing trade logs -----------------------------------------------------------------

  /** The comparison rule of the detector: the trades filled at or before the cutoff. */
  function TradesUpto(trades: seq<Trade>, cutoff: int): seq<Trade> {
    if trades == [] then []
    else TradesUpto(trades[..|trades| - 1], cutoff)
         + if trades[|trades| - 1].fillTs <= cutoff then [trades[|trades| - 1]] else []
  }

  lemma {:induction false} EarlyOnly(a: seq<Trade>, cutoff: int)
    requires forall i :: 0 <= i < |a| ==> a[i].fillTs <= cutoff
    ensures TradesUpto(a, cutoff) == a
  {
    if a != [] {
      assert a == a[..|a| - 1] + [a[|a| - 1]];
      EarlyOnly(a[..|a| - 1], cutoff);
    }
  }

  /** `late` is `early` with trades after the cutoff added. */
  ghost predicate OnlyLater(early: seq<Trade>, late: seq<Trade>, cutoff: int) {
    early <= late && forall i :: |early| <= i < |late| ==> late[i].fillTs > cutoff
  }

  lemma {:induction false} LaterIgnored(early: seq<Trade>, late: seq<Trade>, cutoff: int)
    requires OnlyLater(early, late, cutoff)
    ensures TradesUpto(late, cutoff) == TradesUpto(early, cutoff)
  {
    if |early| < |late| {
      LaterIgnored(early, late[..|late| - 1], cutoff);
    } else {
      assert early == late;
    }
  }

  /** Steps later than the cutoff add only trades later than the cutoff. */
  lemma {:induction false} LaterTrades<S>(st: Strategy<S>, s: Session, cfg: Config, start: Replay<S>, steps: seq<int>, n: nat, k: nat,
                                          base: nat, cutoff: int)
    requires Enterable(start, steps) && Good(start.book, s, cfg, start.clock, base) && n <= k <= |steps|
    requires forall j :: n <= j < |steps| ==> steps[j] > cutoff
    ensures OnlyLater(RunFrom(st, s, cfg, start, steps, n).book.trades, RunFrom(st, s, cfg, start, steps, k).book.trades, cutoff)
  {
    hide Good, Step;
    if n < k {
      LaterTrades(st, s, cfg, start, steps, n, k - 1, base, cutoff);
      RunGood(st, s, cfg, start, steps, k - 1, base);
      StepGood(st, s, cfg, RunFrom(st, s, cfg, start, steps, k - 1), steps[k - 1], base);
    }
  }

  lemma EarlyTrades<S>(st: Strategy<S>, s: Session, cfg: Config, steps: seq<int>, n: nat, cutoff: int)
    requires Timed(s) && steps == Timeline(s) && n <= |steps|
    requires 0 <= cutoff && forall j :: 0 <= j < n ==> steps[j] <= cutoff
    ensures forall i :: 0 <= i < |RunUpto(st, s, cfg, steps, n).book.trades| ==> RunUpto(st, s, cfg, steps, n).book.trades[i].fillTs <= cutoff
  {
    StartEnterable(st, s, cfg);
    RunGood(st, s, cfg, Started(st, s, cfg), steps, n, 0);
    ClockBounded(st, s, cfg, steps, n, cutoff);
  }

  lemma {:induction false} ClockBounded<S>(st: Strategy<S>, s: Session, cfg: Config, steps: seq<int>, n: nat, cutoff: int)
    requires n <= |steps| && 0 <= cutoff && forall j :: 0 <= j < n ==> steps[j] <= cutoff
    ensures RunUpto(st, s, cfg, steps, n).clock <= cutoff
  {
    hide Wake, Serve, Resume;
    if n > 0 {
      ClockBounded(st, s, cfg, steps, n - 1, cutoff);
    }
  }

  // ----- the theorem --------------------------------------------------------------------------

  lemma TimedTimeline(s: Session)
    requires Timed(s)
    ensures Sorted(s) && IsTimeline(s, Timeline(s)) && Ascending(Timeline(s))
  {
    TimelineIs(s, []);
  }

  /** Replaying the session clipped at a cutoff reproduces the full replay's state at that point, and so
      its trade log is exactly the full log's trades filled by the cutoff, for every strategy.  The
      full replay may walk a cached timeline; the clipped one always derives its own. */
  lemma NoLookAhead<S>(st: Strategy<S>, s: Session, cfg: Config, cutoff: int)
    requires Timed(s) && 0 <= cutoff
    ensures RunAll(st, Truncate(s, cutoff), cfg) == RunUpto(st, s, cfg, Timeline(s), CountTimes(Timeline(s), cutoff))
    ensures RunAll(st, Truncate(s, cutoff), cfg).book.trades == TradesUpto(RunAll(st, s, cfg).book.trades, cutoff)
  {
    hide RunFrom, Started, Timeline, IsTimeline, CountTimes, TradesUpto, Truncate, Good, Enterable;
    TimedTimeline(s);
    var steps := Timeline(s);
    var n := CountTimes(steps, cutoff);
    TimelinePrefix(s, cutoff);
    CountTimesSplits(steps, cutoff);
    StartCausal(st, s, cfg, cutoff);
    RunCausal(st, s, cfg, Started(st, s, cfg), steps, n, cutoff);
    StartEnterable(st, s, cfg);
    LaterTrades(st, s, cfg, Started(st, s, cfg), steps, n, |steps|, 0, cutoff);
    EarlyTrades(st, s, cfg, steps, n, cutoff);
    LaterIgnored(RunUpto(st, s, cfg, steps, n).book.trades, RunAll(st, s, cfg).book.trades, cutoff);
    EarlyOnly(RunUpto(st, s, cfg, steps, n).book.trades, cutoff);
  }

  /** The detector's comparison on one cutoff: what the clipped replay logged against what the full one
      had logged by then. */
  method SameUpto(full: seq<Trade>, part: seq<Trade>, cutoff: int) returns (same: bool)
    ensures same == (part == TradesUpto(full, cutoff))
  {
    var expected := [];
    var i := 0;
    while i < |full|
      invariant 0 <= i <= |full| && expected == TradesUpto(full[..i], cutoff)
    {
      assert full[..i + 1][..i] == full[..i];
      if full[i].fillTs <= cutoff {
        expected := expected + [full[i]];
      }
      i := i + 1;
    }
    assert full[..i] == full;
    same := part == expected;
  }

  /** The detector on one cutoff never reports a violation. */
  method CheckCutoff<S>(st: Strategy<S>, s: Session, cfg: Config, cutoff: int) returns (clean: bool)
    requires Timed(s) && cfg.delay >= 0 && 0 <= cutoff
    requires (s.order != [] ==> IsEventOrder(s, s.order)) && (s.timeline != [] ==> IsTimeline(s, s.timeline))
    ensures clean
  {
    hide RunAll, IsTimeline, IsEventOrder, Sorted;
    TruncateSorted(s, cutoff);
    forall t ensures Prints(Truncate(s, cutoff), t) ==> t > NO_TIME { TruncatePrints(s, cutoff, t); }
    var full, _ := RunSession(st, s, cfg);
    var part, _ := RunSession(st, Truncate(s, cutoff), cfg);
    NoLookAhead(st, s, cfg, cutoff);
    clean := SameUpto(full.trades, part.trades, cutoff);
  }
}
