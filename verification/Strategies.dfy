/** What a strategy is: a deterministic state machine that sees the market only through time-gated
    questions, and acts only through orders and attached rules. */
module Strategies {
  import opened Types
  import opened Books
  import opened Sessions
  import opened Bars
  import opened Indicators
  import opened Calendar

  /** Everything a strategy can ask.  Bar and indicator reads carry the caller's own `now`, as in the
      source; `lag` says how far behind the clock that is, so it is never ahead of it. */
  datatype Query =
    | Clock
    | QuoteBack(id: int, back: int)
    | HasQuote(id: int)
    | CompletedBar(id: int, seconds: int, source: BarPrice, lag: nat, back: int)
    | FormingBar(id: int, seconds: int, source: BarPrice, lag: nat)
    | StudyValue(study: Study, id: int, seconds: int, source: BarPrice, lag: nat, back: int)
    | ReadBook

  datatype Answer = Now(t: int) | Quoted(quote: Option<Quote>) | Flag(b: bool) | BarRead(bar: Option<Bar>)
                  | Level(value: Option<real>) | BookRead(book: Book) | Refused

  /** `TradeLots` is the context's `buy` and `sell`; the rest go straight to the portfolio. */
  datatype Action =
    | TradeLots(side: Side, legs: seq<int>, lots: int, name: string)
    | ClosePosition(position: int)
    | CloseLeg(position: int, leg: int)
    | Attach(kind: RuleKind, position: int, guarded: Option<nat>)

  datatype Reply = Accepted | Opened(id: nat) | NoLegs | Rejected

  /** One step of strategy code.  `Await` suspends on a condition (`None`: one that never holds). */
  datatype Move<+S> =
    | Ask(query: Query, andThen: Answer -> S)
    | Act(action: Action, onReply: Reply -> S)
    | Await(cond: Option<S>, next: S)
    | Finish
    | Throw

  /** One step of evaluating a condition: it may look, but not act. */
  datatype Look<+S> = Peek(query: Query, andThen: Answer -> S) | Verdict(holds: bool)

  datatype Strategy<!S> = Strategy(start: S, move: S -> Move<S>, look: S -> Look<S>)

  /** `carryMarks` is set for multi-session runs, whose loop also refreshes marks; `patience` bounds how
      many moves strategy code may make without suspending before the run counts as hung. */
  datatype Config = Config(pol: Policy, delay: int, maxResumes: int, openSecond: int, carryMarks: bool,
                           root: real -> real, patience: nat)

  // ----- questions ----------------------------------------------------------------------------

  function Anchor(s: Session, cfg: Config): int {
    TimestampOf(s.date, cfg.openSecond, IST_OFFSET_SECONDS)
  }

  function GridFor(s: Session, cfg: Config, seconds: int, source: BarPrice): Grid {
    Grid(seconds * NANOS_PER_SECOND, Anchor(s, cfg), source, Anchor(s, cfg) + 24 * 3600 * NANOS_PER_SECOND)
  }

  /** A series answers only for the session it was built from. */
  predicate Expired(g: Grid, now: int) {
    g.validUntil != 0 && now > g.validUntil
  }

  /** The observation `back` rows before the most recent one at `now`. */
  function QuoteAt(s: Session, now: int, id: int, back: nat): Option<Quote> {
    var n := CountUpto(Quotes(s, id), now);
    if back >= n then None else Some(Quotes(s, id)[n - 1 - back])
  }

  /** Answers from the whole session, exactly as the engine's accessors gate it. */
  function AnswerTo(s: Session, cfg: Config, b: Book, now: int, q: Query): Answer {
    match q
    case Clock => Now(now)
    case QuoteBack(id, back) => if back < 0 then Refused else Quoted(QuoteAt(s, now, id, back))
    case HasQuote(id) => Flag(IndexAtOrBefore(Quotes(s, id), now).Some?)
    case CompletedBar(id, seconds, source, lag, back) =>
      var g := GridFor(s, cfg, seconds, source);
      if seconds <= 0 || back < 0 || Expired(g, now - lag) then Refused
      else BarRead(Completed(BarsOf(g, Quotes(s, id)), now - lag, back))
    case FormingBar(id, seconds, source, lag) =>
      var g := GridFor(s, cfg, seconds, source);
      if seconds <= 0 || Expired(g, now - lag) then Refused
      else BarRead(Forming(g, BarsOf(g, Quotes(s, id)), Quotes(s, id), now - lag))
    case StudyValue(study, id, seconds, source, lag, back) =>
      var g := GridFor(s, cfg, seconds, source);
      if seconds <= 0 || back < 0 || study.period == 0 || Expired(g, now - lag) then Refused
      else Level(ReadAt(study, cfg.root, BarsOf(g, Quotes(s, id)), now - lag, back))
    case ReadBook => BookRead(b.(submitted := 0))
  }

  lemma QuoteCausal(cols: seq<Quote>, now: int, cutoff: int, back: nat)
    requires TimeSorted(cols) && now <= cutoff
    ensures CountUpto(Upto(cols, cutoff), now) == CountUpto(cols, now)
    ensures var n := CountUpto(cols, now); back < n ==> Upto(cols, cutoff)[n - 1 - back] == cols[n - 1 - back]
  {
    UptoUpto(cols, now, cutoff);
  }

  lemma SameGrid(s: Session, cfg: Config, seconds: int, source: BarPrice, cutoff: int)
    ensures GridFor(Truncate(s, cutoff), cfg, seconds, source) == GridFor(s, cfg, seconds, source)
  {
  }

  lemma QuoteAnswersCausal(s: Session, cfg: Config, b: Book, now: int, q: Query, cutoff: int)
    requires Sorted(s) && now <= cutoff && (q.QuoteBack? || q.HasQuote?)
    ensures AnswerTo(Truncate(s, cutoff), cfg, b, now, q) == AnswerTo(s, cfg, b, now, q)
  {
    hide Sorted, TimeSorted, Truncate, Quotes, Upto, CountUpto;
    ColumnsCut(s, q.id, cutoff);
    if q.QuoteBack? && q.back >= 0 {
      QuoteCausal(Quotes(s, q.id), now, cutoff, q.back);
    } else {
      QuoteCausal(Quotes(s, q.id), now, cutoff, 0);
    }
  }

  lemma ColumnsCut(s: Session, id: int, cutoff: int)
    requires Sorted(s)
    ensures TimeSorted(Quotes(s, id)) && Quotes(Truncate(s, cutoff), id) == Upto(Quotes(s, id), cutoff)
  {
    TruncateSorted(s, cutoff);
  }

  lemma CompletedAnswersCausal(s: Session, cfg: Config, b: Book, now: int, q: Query, cutoff: int)
    requires Sorted(s) && now <= cutoff && q.CompletedBar?
    ensures AnswerTo(Truncate(s, cutoff), cfg, b, now, q) == AnswerTo(s, cfg, b, now, q)
  {
    hide GridFor, BarsOf, Completed, Forming, Sorted, TimeSorted, Truncate, Quotes, Upto, Expired;
    SameGrid(s, cfg, q.seconds, q.source, cutoff);
    ColumnsCut(s, q.id, cutoff);
    if q.seconds > 0 {
      GridInterval(s, cfg, q.seconds, q.source);
      BarsCausal(GridFor(s, cfg, q.seconds, q.source), Quotes(s, q.id), now - q.lag, cutoff);
    }
  }

  lemma FormingAnswersCausal(s: Session, cfg: Config, b: Book, now: int, q: Query, cutoff: int)
    requires Sorted(s) && now <= cutoff && q.FormingBar?
    ensures AnswerTo(Truncate(s, cutoff), cfg, b, now, q) == AnswerTo(s, cfg, b, now, q)
  {
    hide GridFor, BarsOf, Completed, Forming, Sorted, TimeSorted, Truncate, Quotes, Upto, Expired;
    SameGrid(s, cfg, q.seconds, q.source, cutoff);
    ColumnsCut(s, q.id, cutoff);
    if q.seconds > 0 {
      GridInterval(s, cfg, q.seconds, q.source);
      FormingUnchanged(GridFor(s, cfg, q.seconds, q.source), Quotes(s, q.id), now - q.lag, cutoff);
    }
  }

  lemma GridInterval(s: Session, cfg: Config, seconds: int, source: BarPrice)
    ensures seconds > 0 ==> GridFor(s, cfg, seconds, source).interval > 0
  {
  }

  lemma StudyAnswersCausal(s: Session, cfg: Config, b: Book, now: int, q: Query, cutoff: int)
    requires Sorted(s) && now <= cutoff && q.StudyValue?
    ensures AnswerTo(Truncate(s, cutoff), cfg, b, now, q) == AnswerTo(s, cfg, b, now, q)
  {
    hide GridFor, BarsOf, ReadAt, Completed, Forming, Sorted, TimeSorted, Truncate, Quotes, Upto, Expired;
    SameGrid(s, cfg, q.seconds, q.source, cutoff);
    ColumnsCut(s, q.id, cutoff);
    if q.seconds > 0 && q.back >= 0 && q.study.period > 0 {
      GridInterval(s, cfg, q.seconds, q.source);
      ReadCausal(q.study, cfg.root, GridFor(s, cfg, q.seconds, q.source), Quotes(s, q.id), now - q.lag, cutoff, q.back);
    }
  }

  /** No question asked at or before the cutoff can tell the clipped session from the full one. */
  lemma AnswerCausal(s: Session, cfg: Config, b: Book, now: int, q: Query, cutoff: int)
    requires Sorted(s) && now <= cutoff
    ensures AnswerTo(Truncate(s, cutoff), cfg, b, now, q) == AnswerTo(s, cfg, b, now, q)
  {
    if q.QuoteBack? || q.HasQuote? {
      QuoteAnswersCausal(s, cfg, b, now, q, cutoff);
    } else if q.CompletedBar? {
      CompletedAnswersCausal(s, cfg, b, now, q, cutoff);
    } else if q.FormingBar? {
      FormingAnswersCausal(s, cfg, b, now, q, cutoff);
    } else if q.StudyValue? {
      StudyAnswersCausal(s, cfg, b, now, q, cutoff);
    }
  }

  // ----- actions ------------------------------------------------------------------------------

  /** Addresses are in range: what every portfolio operation needs. */
  predicate Ready(b: Book) {
    Addressed(b, b.pending) && RulesAddressed(b)
  }

  predicate Known(registry: seq<InstrumentSpec>, legs: seq<int>) {
    forall i :: 0 <= i < |legs| ==> 0 <= legs[i] < |registry|
  }

  predicate SameLot(registry: seq<InstrumentSpec>, legs: seq<int>)
    requires legs != []
  {
    forall i :: 0 <= i < |legs| ==> SpecOf(registry, legs[i]).lotSize == SpecOf(registry, legs[0]).lotSize
  }

  /** Contracts ordered per leg, or nothing if the source would refuse the order. */
  function Contracts(registry: seq<InstrumentSpec>, legs: seq<int>, lots: int): Option<int>
    requires legs != []
  {
    if lots <= 0 || !Known(registry, legs) || !SameLot(registry, legs) then None
    else
      var qty := SpecOf(registry, legs[0]).lotSize * lots;
      if qty <= 0 then None else Some(qty)
  }

  function Apply(b: Book, registry: seq<InstrumentSpec>, a: Action, now: int): (r: (Book, Reply))
    requires Ready(b)
    ensures Ready(r.0)
  {
    match a
    case TradeLots(side, legs, lots, name) =>
      if legs == [] then (b, NoLegs)
      else (match Contracts(registry, legs, lots)
            case None => (b, Rejected)
            case Some(qty) => (SubmitOpen(b, name, legs, side, qty, now), Opened(|b.positions|)))
    case ClosePosition(p) =>
      if 0 <= p < |b.positions| then (SubmitClose(b, p, now, false), Accepted) else (b, Rejected)
    case CloseLeg(p, i) =>
      if HasLeg(b, p, i) then (SubmitCloseLeg(b, p, i, now, false), Accepted) else (b, Rejected)
    case Attach(kind, p, leg) =>
      if (!kind.ExitAt? && kind.threshold <= 0.0) || !(0 <= p < |b.positions|) then (b, Rejected)
      else (AttachRule(b, kind, p, leg), Accepted)
  }
}
