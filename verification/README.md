# volforge, verified model

volforge replays recorded option-market sessions against a strategy and reports what it would have
traded. Its value rests on three promises: a strategy never sees an observation before its time, every
rupee in the result is accounted for, and the store that holds the days loses nothing and hides no
damage. This project models the code behind those promises and proves them for every session, every
strategy, every run and every byte sequence.

The model follows the program's structure.

- **Portfolio.** `Books` gives the portfolio's state as a value and each operation as a function on it;
  `Portfolio` is the class with the real collections and loops, each method proved equal to its function.
  `Matching` (orders against legs), `Ledger` (double-entry sums, over the book and position by
  position), `Soundness`, `EndOfDay`, `RiskRules` and `Effects` say what every operation keeps and does.
  `RuleLaw` (marks, profits and when a rule fires), `Exposure` (from a request to what is held and what
  the log says it cost) and `Payoff` (settlement prices) say the same things in amounts, without the
  functions that compute them.
- **Replay.** A strategy (`Strategies`) is any deterministic state machine that asks questions, acts and
  suspends on conditions. Questions are the engine's own accessors: the clock, quotes, whether an
  instrument has printed, completed and forming bars, indicators, and the portfolio. The as-of chain is
  a listing of the fixed registry filtered by the "has printed" question, so it needs no question of its
  own. `EventLoop` is `run_session`, `Backtest` is `run_backtest`; `RunProperties`, `StepDuties` (what
  the engine owes the strategy and its rules at every step), `BacktestProperties`, `SessionReports`,
  `CarriedMarks`, `Valuation`, `Lookahead` and `BacktestLookahead` hold over whole runs.
- **Data.** `Sessions` (columns, as-of lookup, truncation, timelines), `Events` (the k-way merge and the
  sort), `Bars` and `Indicators`; `ReadingLaws` says what each reading is from the rows themselves.
- **Store.** `Words`, `Varint`, `Packing`, `Codec`, `CodecProperties`, `CodecEngine` and
  `ReferenceReader` are the integer column format with both of its readers; `Crc`, `CrcValues`,
  `Layout`, `Registry`, `DayFile`, `DayFileEngine`, `DayFileSession`, `DayFileProperties`,
  `DayFileDamage` and `DayFileCheck` are the day file around it. `FormatLaws` says where its bytes lie
  and what a file that opens must be. Varints follow DWARF 5, section 7.6; the checksum is that of
  section 8 of RFC 1952.
- **Kernels.** `Calendar` and `CalendarProperties` (ISO 8601:2004, section 3.2.1), `Parity`, `Drawdown`,
  `VendorText` and `VendorRows`; `Fractions` holds facts about quotients of reals.

Prices and money are integers in minor units, timestamps are integer nanoseconds, averages and
percentages are reals. Cost policy, fill model, square root, sources and strategies are parameters, so
the results hold for all of them. Exceptions are outcomes: an operation the source refuses returns a
refusal, and an engine or strategy that throws ends the replay where it stood.

Three properties one might expect turn out to be false, and the model says exactly when each holds:

- the parity search may stop beside a closer strike at the edge of the ladder
  (`Parity.SearchMayStopShort`; `Parity.Search` gives the condition under which it does not);
- a ticker with a fractional strike does not parse back (`VendorText.TickerRoundTrip`);
- the store's second reader disagrees with the first on varints that spill over sixty-four bits
  (`ReferenceReader.SpilledBit`; `ReferenceReader.ReferenceAgrees` gives the condition), though never on
  anything the writer writes.

## Model

| member | source | states |
|---|---|---|
| `Lookahead.NoLookAhead` | cpp/core/src/lookahead.cpp:15-42 | for every strategy, replaying the session clipped at a cutoff ends in exactly the state the full replay had at that point, and logs exactly the full log's trades filled by the cutoff, even though one walks a cached timeline and the other derives its own |
| `Lookahead.CheckCutoff` | cpp/core/src/lookahead.cpp:106-140 | running the engine twice and comparing, as the detector does, never finds a difference at any cutoff |
| `Lookahead.SameUpto` | cpp/core/src/lookahead.cpp:115-139 | the comparison accepts exactly when the clipped log is the full log's trades with fill time up to the cutoff |
| `Lookahead.RunCausal` | cpp/core/src/event_loop.cpp:57-92 | from any starting state, steps up to a cutoff lead to the same state on the clipped session as on the full one |
| `BacktestLookahead.BacktestNoLookAhead` | cpp/core/src/backtest.cpp:94-212 | clipping one session of a multi-session run at a cutoff before its settlement time and dropping all later dates leaves exactly the trades filled by the cutoff |
| `Strategies.AnswerCausal` | cpp/core/src/data_source.cpp:92-115 | no question a strategy can ask at or before the cutoff distinguishes the clipped session from the full one |
| `ReadingLaws.HasQuoteLaw` | cpp/core/src/data_source.cpp:111-115 | an instrument has printed if and only if some row of it has happened |
| `ReadingLaws.QuoteLaw` | cpp/core/src/data_source.cpp:92-109 | a look-back of n is the row n before the last one that has happened, which is also what fills, marks and rules see |
| `ReadingLaws.OwnStateLaw` | cpp/core/src/data_source.cpp:89-90 | the clock a strategy reads is the engine's, and the book it reads is its own |
| `Sessions.ClipSession` | cpp/core/src/lookahead.cpp:15-29 | the constructor's loop keeps the instruments that had printed by the cutoff, with the number of their rows and the total |
| `Sessions.ClipIsTruncate` | cpp/core/src/lookahead.cpp:31-42 | the view built from those counts serves, for each instrument, exactly the rows that had happened by the cutoff |
| `Sessions.FindAtOrBefore` | cpp/core/src/quotes.cpp:7-16 | the binary search returns the one index that splits rows at or before the time from later ones, or nothing when no row had happened |
| `Sessions.UptoUpto` | cpp/core/src/quotes.cpp:7-16 | a look-back from now sees the same rows whether or not the column was cut later than now |
| `Sessions.TimelinePrefix` | cpp/core/src/event_loop.cpp:39-55 | the clipped session's derived timeline is the full timeline's times up to the cutoff |
| `Events.MergeEqualsSort` | cpp/core/src/data_source.cpp:44-83 | the heap merge emits exactly the sequence sorted by time, instrument and row |
| `Events.EventCursor.Next` | cpp/core/src/data_source.cpp:58-83 | each call emits the next event of that sequence and leaves the rest, along the cached index or by merging |
| `Events.OrderUnique` | cpp/core/src/memory_source.cpp:59-67 | only one ordered sequence holds a given set of events, so the sort algorithm cannot matter |
| `Events.OrderLaw` | cpp/core/src/memory_source.cpp:63-67 | earlier times come first, then lower instruments, then earlier rows |
| `Events.BuildEventOrder` | cpp/core/src/memory_source.cpp:50-74 | the index lists every observation exactly once in order, and the timeline is the strictly ascending set of their times |
| `Events.ReplaySteps` | cpp/core/src/event_loop.cpp:39-55 | the steps of a replay are the strictly ascending set of all observation times, cached or derived |
| `Bars.Build` | cpp/core/src/bars.cpp:37-67 | the single pass that remembers the current bucket builds the bars of the column |
| `Bars.BarsExact` | cpp/core/src/bars.cpp:20-67 | every bar lies on the anchor's grid and is the open, high, low, close, volume and count of exactly the usable rows of its floor-division bucket; every usable row is in a bar; bars ascend strictly |
| `Bars.BarsCausal` | cpp/core/src/bars.cpp:69-137 | cutting the data at or after now changes no count of closed bars, no completed bar and no forming bar |
| `Bars.GateIsExact` | cpp/core/src/bars.cpp:91-137 | a forming-bar read is blind to data after a cutoff, for every column, if and only if the time passed is not after it |
| `Bars.CountKnown` | cpp/core/src/bars.cpp:69-80 | the binary search counts exactly the bars that close at or before now |
| `Bars.Reaggregate` | cpp/core/src/bars.cpp:91-137 | the re-aggregation loop yields the forming bar of the rows seen so far |
| `ReadingLaws.FormingLaw` | cpp/core/src/bars.cpp:91-137 | the bar seen building is the last bar built from the rows so far, as long as it has not closed |
| `ReadingLaws.CompletedLaw` | cpp/core/src/bars.cpp:82-89 | a completed-bar read returns the bar that many before the last one closed by then |
| `ReadingLaws.GridLaw` | cpp/core/src/bars.cpp:28-48 | bars are as wide as was asked for and start whole widths from the session's open |
| `ReadingLaws.RefusedLaw` | cpp/core/src/bars.cpp:69-83 | a bar or indicator read is refused if and only if it asks for no width or no window, reads ahead, or falls after the day that starts at the session's open |
| `ReadingLaws.BarPriceLaw` | cpp/core/src/bars.cpp:20-26 | the price of a row is half the sum of a two-sided quote, rounded down, if the middle is asked for, else the last print |
| `Indicators.Sma` | cpp/core/src/indicators.cpp:47-59 | the running sum gives, at every bar with enough history, the average of its window, and nothing before |
| `Indicators.Bollinger` | cpp/core/src/indicators.cpp:84-117 | the bands are the direct window mean and spread, so the middle band is the moving average |
| `ReadingLaws.BandsLaw` | cpp/core/src/indicators.cpp:92-110 | the bands stand evenly around the mean of the window, the upper one above; the square of their distance is k squared times the mean squared distance of the closes from it |
| `ReadingLaws.StudyLaw` | cpp/core/src/indicators.cpp:30-45 | an indicator read is the indicator over the bar closes as it stood at the bar that many before the last one closed |
| `ReadingLaws.BandLines` | cpp/core/src/indicators.cpp:112-116 | the middle series is the moving average and lies between the lower and the upper one |
| `Indicators.ReadCausal` | cpp/core/src/indicators.cpp:30-45 | an indicator read at or before the cutoff is unchanged by removing later data |
| `EventLoop.ReplayClock.AdvanceTo` | cpp/core/src/data_source.cpp:12-20 | the clock moves to the time asked for or refuses, and never goes back |
| `EventLoop.Consult` | cpp/core/src/data_source.cpp:92-115 | every accessor, run as the loop the source runs, gives the specified time-gated answer |
| `EventLoop.RunSession` | cpp/core/src/event_loop.cpp:9-119 | the engine's loops over a portfolio object, a clock and a strategy end in the state of the step machine the whole-run results speak about |
| `EventLoop.WakeTask` | cpp/core/src/event_loop.cpp:77-91 | the inner loop resumes while the awaited condition holds and throws after too many resumptions in one step |
| `StepDuties.EveryStepServes` | cpp/core/src/event_loop.cpp:57-92 | at every step of every session, entered in any state a run can be in, the strategy is given its turn with a book in which no order that could trade waits and no unspent rule has reached its limit; if what it awaits does not hold the book stays so, and otherwise its turn ends only when what it awaits no longer holds |
| `StepDuties.EverySessionServes` | cpp/core/src/backtest.cpp:129-160 | the same at every step of every session of a multi-session run |
| `StepDuties.TurnIsComplete` | cpp/core/src/event_loop.cpp:79-91 | after its turn what a running strategy awaits does not hold, so it was resumed as often as it should be |
| `StepDuties.NoTurnWithoutCause` | cpp/core/src/event_loop.cpp:79-81 | if what it awaits does not hold, nothing at all happens to the strategy or the book |
| `StepDuties.TurnWithinLimit` | cpp/core/src/event_loop.cpp:79-86 | a turn of no more resumptions than the limit runs its course |
| `StepDuties.SpinningThrows` | cpp/core/src/event_loop.cpp:86-90 | the first resumption past the limit, and no earlier one, throws |
| `StepDuties.EndIsSpoken` | cpp/core/src/event_loop.cpp:83 | strategy code ends in a throw only because it threw, and counts as hung only while it was still asking or acting |
| `StepDuties.EntrySpeaks` | cpp/core/src/event_loop.cpp:32-35 | the strategy is entered before any data and stands where its own code first suspended or returned |
| `StepDuties.EveryRunSpeaks` | cpp/core/src/event_loop.cpp:57-92 | at every point of every replay what the strategy awaits is something its own code asked to wait for |
| `PortfolioObject.Portfolio.constructor` | cpp/core/src/portfolio.cpp:123-129 | a new portfolio is empty |
| `PortfolioObject.Portfolio.SubmitOpen` | cpp/core/src/portfolio.cpp:136-159 | queues one opening order per leg of a new position, or refuses and changes nothing |
| `PortfolioObject.Portfolio.SubmitClose` | cpp/core/src/portfolio.cpp:161-182 | both loops together withdraw the position's openings and order its exits, as specified |
| `PortfolioObject.Portfolio.SubmitCloseLeg` | cpp/core/src/portfolio.cpp:184-193 | one exit for an open leg, nothing for any other |
| `PortfolioObject.Portfolio.ProcessPending` | cpp/core/src/portfolio.cpp:195-259 | the fill loop's new state is the specified one |
| `PortfolioObject.Portfolio.RefreshMarks` | cpp/core/src/portfolio.cpp:265-286 | the mark loop's new state is the specified one |
| `PortfolioObject.Portfolio.SettleExpiry` | cpp/core/src/portfolio.cpp:288-354 | both settlement loops' new state is the specified one, and the count returned is the legs settled |
| `PortfolioObject.Portfolio.CancelWorkingOrders` | cpp/core/src/portfolio.cpp:356-386 | the end-of-day loops' new state is the specified one, and the count returned is the orders that were working |
| `PortfolioObject.Portfolio.ProcessRiskRules` | cpp/core/src/portfolio.cpp:409-462 | the rule loop's new state is the specified one |
| `PortfolioObject.Portfolio.EquityNow` | cpp/core/src/portfolio.cpp:475-490 | the loops over positions and legs return realized less costs plus open profit |
| `Books.ClosedMeaning` | cpp/core/src/portfolio.cpp:27-46 | a position reports closed if and only if every leg is closed or cancelled and some leg is closed; one whose legs were all cancelled never does |
| `Exposure.RequestLaw` | cpp/core/src/strategy.cpp:339-350 | a request is taken if and only if it asks for a positive number of lots of known instruments sharing one positive lot size, and it then asks for that many lots of each |
| `Exposure.RequestOpens` | cpp/core/src/strategy.cpp:354-368 | buying or selling lots opens a position of exactly the signed units asked for, queues one order per leg on the side asked for after the delay, and changes nothing else |
| `Exposure.RequestIsFilled` | cpp/core/src/portfolio.cpp:136-259 | from the request to the fill: once its orders find a price the position holds of every instrument the units asked for, up if bought and down if sold, each leg entered at its price, and the log's cash for it is what was paid or received |
| `Exposure.CashFollowsSide` | cpp/core/src/portfolio.cpp:146 | at positive prices that cash is negative for a purchase and positive for a sale |
| `Exposure.HeldAsAsked` | cpp/core/src/portfolio.cpp:136-159 | in any sound book a position all of whose legs are held holds exactly the units asked for, with the entries paid or received in the log |
| `Exposure.LegExits` | cpp/core/src/portfolio.cpp:242-246 | an exit that finds a price closes its leg at it, and changes nothing else of the leg |
| `Exposure.ClosePositionLaw` | cpp/core/src/portfolio.cpp:161-182 | a strategy's close withdraws the position's unfilled openings, orders the exit of its open legs and touches no other leg |
| `Exposure.RefusalLaw` | cpp/core/src/strategy.cpp:339-368 | a request that cannot be met changes nothing |
| `Exposure.CloseLegLaw` | cpp/core/src/portfolio.cpp:184-193 | closing an open leg orders its whole quantity on the other side; closing any other does nothing |
| `Exposure.AttachLaw` | cpp/core/src/portfolio.cpp:392-407 | a rule is accepted if and only if its position exists and its percentage, if it has one, is positive; it is then the last rule, unspent |
| `Exposure.PassMarksOrders` | cpp/core/src/portfolio.cpp:131-134 | a pass over the rules orders only exits marked as rules' own, decided now |
| `Exposure.ActionsAreOwn` | cpp/core/src/portfolio.cpp:131-134 | no action of a strategy orders anything in a rule's name |
| `Exposure.FlagsMean` | cpp/core/src/portfolio.cpp:208-255 | a trade repeats its order's terms at the fill model's price and the cost policy's charge, is oversized if and only if it took more than was shown on its side, and illiquid if and only if the spread exceeds the ratio of a positive middle |
| `Effects.ProcessPendingEffect` | cpp/core/src/portfolio.cpp:195-259 | a pass fills exactly the orders with a price now, each on its own leg at that price, logs them in queue order and leaves the others resting in order |
| `Effects.SubmitCloseEffect` | cpp/core/src/portfolio.cpp:161-182 | closing withdraws exactly the position's unfilled openings, orders one exit per open leg, and touches no other leg or order |
| `Effects.SettleExpiryEffect` | cpp/core/src/portfolio.cpp:288-354 | settlement closes every live leg of the series at intrinsic value, cancels those that never opened, drops the series' orders and touches nothing else |
| `Payoff.SettlementPays` | cpp/core/src/portfolio.cpp:288-336 | a live leg of the series closes at nothing out of the money, else at the distance of level and strike to within half a minor unit, and the log records that price, side and quantity, with a charge only for an exercised long; every other filled leg stays as it was |
| `Payoff.CallLessPut` | cpp/core/src/portfolio.cpp:300-304 | of one strike at most one of call and put pays, and the call less the put is the level less the strike up to the rounding of one price |
| `Effects.CancelWorkingEffect` | cpp/core/src/portfolio.cpp:356-386 | openings are cancelled, exits reopen their legs, and a spent rule is armed again exactly when its position had an exit abandoned |
| `Soundness.SubmitOpenSound` | cpp/core/src/portfolio.cpp:136-159 | keeps the whole invariant: orders and legs correspond one to one, the ledger balances, trades respect the delay, spent rules guard nothing exposed |
| `Soundness.SubmitCloseSound` | cpp/core/src/portfolio.cpp:161-182 | keeps the invariant and leaves no leg of the position open or about to open |
| `Soundness.ProcessPendingSound` | cpp/core/src/portfolio.cpp:195-259 | keeps the invariant; closed and cancelled legs, entries and logged trades stay as they are |
| `Soundness.RefreshMarksSound` | cpp/core/src/portfolio.cpp:265-286 | keeps the invariant and logs nothing |
| `EndOfDay.SettleExpirySound` | cpp/core/src/portfolio.cpp:288-354 | keeps the invariant and leaves nothing of the series held or on order |
| `EndOfDay.CancelWorkingSound` | cpp/core/src/portfolio.cpp:356-386 | keeps the invariant, empties the queue, and leaves every leg open, closed or cancelled |
| `RiskRules.FireRuleSound` | cpp/core/src/portfolio.cpp:449-460 | firing keeps the invariant with the rule spent, so what it guards is neither open nor waiting to open |
| `RiskRules.ProcessRiskRulesSound` | cpp/core/src/portfolio.cpp:409-462 | a pass over all rules keeps the invariant, spent-rule safety included |
| `RiskRules.NoTriggerMissed` | cpp/core/src/portfolio.cpp:409-462 | after a pass no unspent rule is due, and every rule the pass spent was due, or guarding nothing, when it began |
| `RuleLaw.FiringLaw` | cpp/core/src/portfolio.cpp:409-462 | the firing law in amounts: a pass spends an unspent rule only if what it guards is held in full and the gain over its stake has reached the stop or the target, or the deadline has come, or nothing is left to guard; and then it does, unless an earlier rule already ordered the guarded leg's exit |
| `RuleLaw.PositionFiringLaw` | cpp/core/src/portfolio.cpp:409-462 | for a rule on a whole position that is an equivalence |
| `RuleLaw.FiredCountLaw` | cpp/core/src/portfolio.cpp:446-447 | a pass counts as fired exactly the rules it spent that had something left to guard |
| `RuleLaw.PassTouchesGuarded` | cpp/core/src/portfolio.cpp:449-460 | every leg a pass changes is guarded by a rule that the pass spent |
| `RuleLaw.MarkIsExitPrice` | cpp/core/src/portfolio.cpp:57-65 | wherever the default fill model would execute the closing order of a leg, it executes at the leg's mark |
| `RuleLaw.MarkIsConservative` | cpp/core/src/portfolio.cpp:57-75 | no leg is valued above the middle of an uncrossed market; a long without a bid is worth nothing, a short without an offer costs the last print |
| `RuleLaw.MarkIsCarried` | cpp/core/src/portfolio.cpp:77-81 | without a usable quote a leg stands at the mark it carries, else at its entry |
| `RuleLaw.RefreshRecordsMark` | cpp/core/src/portfolio.cpp:265-286 | refreshing records the closing price of every live leg with a usable quote, changes nothing else, and no valuation |
| `RuleLaw.SpreadIsPaid` | cpp/core/src/portfolio.cpp:15-21 | the default fill model trades if and only if the book is two-sided and not crossed, buys at the ask and sells at the bid, never better than the middle |
| `RuleLaw.ProfitIsCash` | cpp/core/src/portfolio.cpp:84-110 | a position's profit is the cash logged under it plus what it still holds at its marks, so exactly the cash once every leg is done |
| `Matching.OrdersDistinct` | cpp/core/src/portfolio.cpp:131-193 | with an order taken out of a matched queue, no order left is for its leg |
| `Ledger.EquityIsCashPlusHoldings` | cpp/core/src/portfolio.cpp:475-490 | in a balanced book equity is the log's signed cash, less the costs it charged, plus live legs at their exit-side marks |
| `RunProperties.EveryRunIsGood` | cpp/core/src/event_loop.cpp:57-92 | at every step of every replay the book is sound, every trade filled strictly after it was decided and no sooner than the delay allows, at the fill model's price and the cost policy's cost for the quote standing then |
| `RunProperties.RunEvolves` | cpp/core/src/event_loop.cpp:57-92 | over any stretch of a run trades are only added, closed and cancelled legs are absorbing, and entries are never rewritten |
| `Backtest.CollectDue` | cpp/core/src/backtest.cpp:38-51 | the nested loops collect the due series |
| `Backtest.RunBacktest` | cpp/core/src/backtest.cpp:55-233 | the session loop refuses unordered dates and a missing first session, and otherwise ends where the specified run ends, with its summary lines |
| `SessionReports.EverySessionTells` | cpp/core/src/backtest.cpp:192-206 | after every session the line it adds gives its date, the realized profit and costs, the equity the log and the holdings account for, and how many positions still hold something, at a time not before the settlement |
| `SessionReports.EverySessionSettles` | cpp/core/src/backtest.cpp:162-190 | at the close of every session a leg still held settles if and only if it is an option whose expiry has come; any other stays held with its unfilled exit withdrawn |
| `SessionReports.RefusedRun` | cpp/core/src/backtest.cpp:58-96 | a run is refused if and only if two dates are out of order or the first session is missing; a session missing later is passed over |
| `SessionReports.LevelLaw` | cpp/core/src/backtest.cpp:15-31 | a series settles at the spot's last print by then if that carries a price, else at the forward |
| `SessionReports.ForbiddenExpiryThrows` | cpp/core/src/backtest.cpp:169-175 | where expiry is forbidden, a session that ends holding an expired option ends the run and settles nothing |
| `SessionReports.MissingLevelThrows` | cpp/core/src/backtest.cpp:177-184 | so does one for which no level can be found |
| `BacktestProperties.DueUptoMeaning` | cpp/core/src/backtest.cpp:38-51 | due series are, in ascending order, exactly the arrived expiries of live option legs |
| `BacktestProperties.EverySessionEndsSafe` | cpp/core/src/backtest.cpp:162-212 | after every session nothing works overnight, every leg is open, closed or cancelled, no live option has reached its expiry, fills respect the delay at a replayed session's prices, and the summary lines add up to the run |
| `CarriedMarks.SessionValues` | cpp/core/src/backtest.cpp:129-138 | through a session's steps live legs stay entered at positive prices with recorded marks, and an instrument that has not printed keeps the mark it came in with |
| `CarriedMarks.MarksAreCarried` | cpp/core/src/backtest.cpp:129-138 | right after every step every live leg's recorded mark is the price it would close at, before its instrument prints in a new session too; a long leg never loses more than its premium and a short leg never gains more than its own |
| `Valuation.EquityOfEveryRun` | cpp/core/src/portfolio.cpp:486-490 | at every step of every replay under a fill model without negative prices, equity is accounted for by the log and the holdings |
| `Valuation.EquityOfEveryBacktest` | cpp/core/src/backtest.cpp:129-197 | the same after every session, and after every step of every session, of a multi-session run |
| `Varint.ZigzagBijective` | cpp/store/src/codec.cpp:10-16 | the zigzag map and its inverse undo each other on all 64-bit values |
| `FormatLaws.ZigzagLaw` | cpp/store/src/codec.cpp:10-12 | negatives become odd and the rest even, twice their size or one less |
| `FormatLaws.VarintLaw` | cpp/store/src/codec.cpp:18-24 | a varint is the number's base-128 digits, lowest first, every byte but the last marked, none wasted |
| `FormatLaws.VarintReadLaw` | cpp/store/src/codec.cpp:27-38 | a number is read from the digits up to the first unmarked byte, which must be one of the first ten, modulo 2^64 |
| `Varint.WriteVarint` | cpp/store/src/codec.cpp:18-24 | the writing loop appends the encoding |
| `Varint.ReadVarint` | cpp/store/src/codec.cpp:27-38 | the reading loop accepts, and stops, exactly where the format says, on any bytes |
| `Varint.VarintRoundTrip` | cpp/store/src/codec.cpp:18-38 | reading what was written returns the value and exactly the bytes after it |
| `Varint.OverLongAccepted` | cpp/store/src/codec.cpp:27-38 | two different encodings of zero are both accepted: the reader is not injective |
| `Packing.PackRoundTrip` | cpp/store/src/codec.cpp:54-100 | unpacking a packed block returns its values and exactly the bytes after them |
| `Packing.PackShiftIn` | cpp/store/src/codec.cpp:54-69 | shifting a value of at most 56 bits into the accumulator never crosses its sixty-fourth bit |
| `Packing.Pack` | cpp/store/src/codec.cpp:54-69 | the 64-bit accumulator loop writes the block as one number in base 256 |
| `Packing.Unpack` | cpp/store/src/codec.cpp:75-100 | the unpacking loop reads that number's digits back, or refuses a short buffer |
| `Codec.GcdMeaning` | cpp/store/src/codec.cpp:43-46 | the divisor divides both arguments and is divided by every common divisor |
| `Codec.ScaleDivides` | cpp/store/src/codec.cpp:120-133 | the scale divides every delta, wrapped ones included |
| `Codec.ScaleGreatest` | cpp/store/src/codec.cpp:120-133 | no larger divisor would do: whatever divides all the deltas divides the common divisor found |
| `Codec.ScaledExact` | cpp/store/src/codec.cpp:149-152 | dividing a delta by the scale is undone by multiplying, even for the scale 2^63 |
| `CodecProperties.WidthHolds` | cpp/store/src/codec.cpp:156-168 | the chosen width holds every residual and no narrower packed width would |
| `FormatLaws.WidthLaw` | cpp/store/src/codec.cpp:40-52 | a width is the least that holds its range, and ranges of more than 56 bits take whole words |
| `FormatLaws.BlockLaw` | cpp/store/src/codec.cpp:136-189 | differences are packed 128 to a block |
| `CodecEngine.EncodeColumn` | cpp/store/src/codec.cpp:104-189 | the encoder's loops over fixed buffers append the encoded column |
| `CodecEngine.DecodeColumn` | cpp/store/src/codec.cpp:199-256 | the decoder's loops accept exactly the well-formed columns, on any bytes, and return their values and length |
| `CodecProperties.ColumnRoundTrip` | cpp/store/src/codec.cpp:104-256 | decoding an encoded column followed by any bytes returns the column and stops exactly at its end, however its differences wrap |
| `CodecProperties.PrefixRefused` | cpp/store/src/codec.cpp:199-256 | every strict prefix of an encoded column is refused |
| `CodecProperties.DecodeConsumes` | cpp/store/src/codec.cpp:192-256 | on any bytes an accepted column lies inside the buffer, takes at least one byte, and has as many values as its count claims |
| `CodecProperties.EncodedSize` | cpp/store/src/codec.cpp:104-189 | at most thirty bytes of header, eleven per block and eight per value after the first |
| `CodecProperties.ConstantStepSize` | cpp/store/src/codec.cpp:113-189 | a column that moves by one step throughout costs exactly two bytes per block after its header |
| `ReferenceReader.ReferenceRoundTrip` | docs/reference_reader.py:86-124 | the unbounded-integer reader also returns every encoded column and stops exactly at its end |
| `ReferenceReader.ReferenceAgrees` | docs/reference_reader.py:41-124 | of a column the first reader accepts, the second makes the same if and only if the count and first value fit sixty-four bits and no block minimum's excess survives scaling |
| `ReferenceReader.RefusedAlike` | docs/reference_reader.py:86-124 | both refuse the same bytes when the count fits and the scale is not a nonzero multiple of 2^64 |
| `ReferenceReader.SpilledBit` | docs/reference_reader.py:41-54 | a concrete column both accept and read differently |
| `Crc.BuildTable` | cpp/store/src/vfday.cpp:66-77 | entry i of the table is the remainder of the byte i |
| `Crc.Crc32` | cpp/store/src/vfday.cpp:81-87 | the table-driven loop over a whole buffer computes the bit-serial polynomial remainder, for every seed |
| `Crc.LookupIsDivision` | cpp/store/src/vfday.cpp:85 | one table lookup does the work of eight steps of the division, from any register |
| `Crc.ChecksumChains` | cpp/store/src/vfday.cpp:81-87 | seeding with the checksum of what came before continues it |
| `Crc.BurstDetected` | cpp/store/src/vfday.cpp:81-87 | replacing up to four consecutive bytes by different ones always changes the checksum |
| `Crc.WindowDetected` | cpp/store/src/vfday.cpp:81-87 | two different buffers of equal length that agree outside four consecutive bytes have different checksums |
| `CrcValues.Residue` | cpp/store/src/vfday.cpp:81-87 | every buffer followed by its own checksum, as four little-endian bytes, has the checksum 0x2144DF1C |
| `CrcValues.CheckValue` | cpp/store/src/vfday.cpp:81-87 | the checksum of the digits one to nine is 0xCBF43926 |
| `Registry.IdsAreIdentities` | cpp/core/src/instrument.cpp:26-66 | two ids are equal if and only if their contracts' identities are |
| `Registry.InstrumentRegistry.InternUnderlying` | cpp/core/src/instrument.cpp:36-45 | a known name returns its id and changes nothing; a new one is appended |
| `Registry.InstrumentRegistry.Add` | cpp/core/src/instrument.cpp:55-66 | a known contract returns its id and changes nothing; a new one is appended |
| `Layout.RecordRoundTrip` | cpp/store/src/vfday.cpp:18-58 | a packed little-endian record reads back field by field |
| `FormatLaws.ImageLayout` | cpp/store/src/vfday.cpp:19-35 | where a written file keeps its magic, version, date, counts, first regions, header checksum and regions |
| `FormatLaws.RegionLayout` | cpp/store/src/vfday.cpp:27-32 | where the header keeps the place, size and checksum of the remaining regions and the length of the file |
| `FormatLaws.TableLayout` | cpp/store/src/vfday.cpp:37-47 | where an instrument's record keeps its name's place, kind, right and terms |
| `FormatLaws.DirectoryLayout` | cpp/store/src/vfday.cpp:49-57 | where a directory record keeps the index, row count, place, size, checksum and first and last time of an instrument's bytes, and what those numbers are |
| `FormatLaws.BlobLayout` | cpp/store/src/vfday.cpp:155-162 | an instrument's bytes are its eight columns in the order of the format |
| `DayFileEngine.WriteDay` | cpp/store/src/vfday.cpp:119-232 | the writer's buffers and header come out as the specified byte image |
| `DayFileSession.OpenFile` | cpp/store/src/vfday.cpp:323-446 | the opening reader accepts exactly the images the format accepts, and registers what they list |
| `FormatLaws.OpenedHeader` | cpp/store/src/vfday.cpp:332-362 | a file that opens names the format and its version and matches its header checksum and length, and its instrument table lies inside it and matches its own |
| `FormatLaws.OpenedIndex` | cpp/store/src/vfday.cpp:375-443 | its timeline ascends strictly; its directory lists as many instruments as the header says, each once, with its bytes between header and instrument table and its times in order, and as many rows between them as the header says |
| `FormatLaws.DecodedRows` | cpp/store/src/vfday.cpp:454-523 | rows handed out come from bytes that match their checksum, are as many as the directory says, and begin and end when it says |
| `DayFileSession.FileSession.Quotes` | cpp/store/src/vfday.cpp:454-530 | an instrument's rows do not depend on what was asked before: the cache changes no answer |
| `DayFileSession.FileSession.Printed` | cpp/store/src/vfday.cpp:448-452 | answered from the directory, with nothing decoded |
| `DayFileProperties.OpenRestores` | cpp/store/src/vfday.cpp:119-446 | opening a written file, whatever the registry already holds, restores date, timeline, row count, every contract by identity under distinct ids, and all eight columns of each |
| `DayFileProperties.PrintedByAgrees` | cpp/core/include/volforge/data_source.hpp:105-108 | the directory's answer agrees with the decode-based default at every time |
| `DayFileDamage.DamageIsCaught` | cpp/store/src/vfday.cpp:343-382 | one changed byte is caught if and only if it lies outside the reserved word: at opening, or at the decode of exactly the instrument whose bytes changed, every other one unharmed |
| `DayFileCheck.ReadBack` | cpp/store/src/vfday.cpp:242-293 | the write-time verification never complains about a storable session |
| `CalendarProperties.CalendarBijection` | cpp/core/include/volforge/types.hpp:59-83 | on dates of year zero or later the two conversions are mutually inverse and dates order as days |
| `CalendarProperties.DaysRoundTrip` | cpp/core/include/volforge/types.hpp:70-83 | every day number is the number of the valid date it converts to |
| `CalendarProperties.AddDaysComposes` | cpp/core/include/volforge/types.hpp:92-95 | adding days composes additively, as long as the date in between can be encoded |
| `CalendarProperties.WeekdayAdvances` | cpp/core/include/volforge/types.hpp:86-90 | the weekday advances by one modulo seven each day |
| `CalendarProperties.EpochWallClock` | cpp/core/include/volforge/types.hpp:97-106 | on the epoch's date a wall-clock time is that many seconds less the distance from UTC |
| `CalendarProperties.NextDaySameTime` | cpp/core/include/volforge/types.hpp:102-106 | the same wall-clock time of the next day is a day later |
| `CalendarProperties.AlarmNeverSpins` | cpp/core/src/strategy.cpp:406-423 | waiting for a time of day returns a condition that already holds if and only if the time is past and there is no calendar; with one it resolves to the nearest later session; a time still to come is waited for exactly |
| `Parity.Scan` | cpp/core/src/greeks.cpp:160-169 | the linear scan returns the first strike of least distance from parity |
| `Parity.UsableNear` | cpp/core/src/strategy.cpp:179-191 | the nearest quoted strike, the higher of two as near; nothing only if none of the thirteen on either side is quoted |
| `Parity.Search` | cpp/core/src/strategy.cpp:193-232 | on a fully quoted ladder with falling difference the doubling and bisecting search finds a closest strike if and only if the stated condition on the ladder's edge holds, after at most one probe and two logarithms |
| `Parity.SearchMayStopShort` | cpp/core/src/strategy.cpp:203-223 | six concrete strikes on which the search misses the closest one |
| `Drawdown.Worst` | python/volforge/analysis.py:159-181 | the single pass finds the least later-minus-earlier difference, and the pair that attains it |
| `Drawdown.FirstReturn` | python/volforge/analysis.py:183-189 | the first point after the trough that is back at the peak, if any |
| `VendorText.ScanPrice` | cpp/adapters/src/gfdl_csv.cpp:48-68 | the unsigned part of a price: whole units and two decimals, further ones dropped |
| `VendorText.ParseSymbol` | cpp/adapters/src/gfdl_csv.cpp:81-127 | the scanning parser accepts exactly the option tickers of the format |
| `VendorText.TickerRoundTrip` | docs/reference_reader.py:138-144 | a printed ticker parses back to the same option if and only if its strike is whole and it has at least twelve characters; otherwise it does not parse at all |
| `VendorText.PointCutsTicker` | cpp/adapters/src/gfdl_csv.cpp:84-86 | everything from the first point on is ignored |
| `VendorText.ParseRows` | cpp/adapters/src/gfdl_csv.cpp:141-249 | the row loop reads and skips the lines of any buffer as specified |
| `VendorText.LinesAccounted` | cpp/adapters/src/gfdl_csv.cpp:155-247 | each non-blank line after the header is counted once, as read or as skipped, and the rows read are time-ordered within one civil day |
| `VendorRows.RowRoundTrip` | cpp/adapters/src/gfdl_csv.cpp:180-209 | a row written in the vendor's column order reads back field by field: date, time, prices, sizes and open interest each from its own column |
| `VendorRows.WrittenRowTaken` | cpp/adapters/src/gfdl_csv.cpp:166-246 | such a row of the day, not earlier than the last, is kept with its quote at the instant its wall clock names |
| `VendorRows.KeptLaw` | cpp/adapters/src/gfdl_csv.cpp:166-246 | a line is kept if and only if it has ten columns, names a time of day on a day from 1990 to 2100, that day is the file's, and it is not earlier than the row before it; any other is counted as skipped |
| `VendorRows.TickersAreSpelled` | cpp/adapters/src/gfdl_csv.cpp:81-127 | two concrete tickers and the contracts they name |
| `VendorRows.MonthsAreSpelled` | cpp/adapters/src/gfdl_csv.cpp:17-29 | the letters of each month |

## Left out

- Widths outside the codec and the file: timestamps, prices, quantities and money are unbounded integers, so their 64- and 32-bit overflow in the engine and portfolio is not modelled. The file's 32-bit fields and the scanner's 32-bit price cast are.
- Floating point: percentages, averages and settlement levels are exact reals; rounding of doubles is not modelled.
- Black-76, Greeks, implied volatility, margin and cost rates: cost is an arbitrary function of the fill; margin sampling touches no trade.
- `stdev`: its loop guard stops it at the first bar for any period above one (cpp/core/src/indicators.cpp:66), against its declared purpose; `Bollinger` covers the same arithmetic.
- Coroutines, closures and exceptions as mechanisms: a strategy is a state machine, a condition a state it evaluates, a throw an outcome.
- Strategy code that never suspends: the model gives it a fixed number of moves and then calls the run hung; the source would loop.
- Ids no registry issued: looking one up throws in the source; the model reaches the registry only with issued ids, which every run keeps (`RunProperties.EveryRunIsGood`).
- The forward of the settlement fallback: a parameter of the multi-session run; its discounting and cache are not modelled, its search is (`Parity.Search`).
- BacktestLookahead.BacktestNoLookAhead: asks for a cutoff before the session's settlement time, because a session clipped after it settles at its own last step, which may be earlier than the full session's.
- Parity.Search: the if-and-only-if is for fully quoted ladders; on ladders with gaps the source stops at the first unquoted probe, and only safety and the probe bound are of interest there.
- Parity discounting: the recovered forward multiplies the gap by exp(rt); only the choice of strike is modelled.
- VendorText.ScanPrice: the intermediate 64-bit accumulator is unbounded, so only the final 32-bit cast wraps.
- CodecEngine.DecodeColumn: a hostile count makes the source allocate that many values before it reads them; allocation failure is not modelled.
- DayFileSession.OpenFile: header offsets are added as unbounded integers; 64-bit overflow of a hostile offset is not modelled.
- Heap layout and the sort's internals: the heap hands out its least run; the sort is by insertion, and `Events.OrderUnique` makes the choice immaterial.
- Hash quality of the registry: a plain map.
- Files, streams, directories, zip archives and lazily opened handles: a file is a byte sequence and a source is a function from dates to sessions.
- The detector's random choice of cutoffs, its report strings and its skipping of empty clipped sessions: the theorem covers every cutoff.
- Observation, step and resume counters and the bar, forward and view caches: they change no answer.
- Raw mutable access through `Position::legs()` and `BarSeries::all()`: it bypasses the gates on purpose.
- Synthetic data, the Python bridge, and the rest of the analysis module: formulas over a finished result.
