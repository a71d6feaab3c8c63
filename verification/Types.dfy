/** Core value types: quotes, instruments, sides and the market as it stands at one instant.
    Timestamps are nanoseconds, prices and money are integer minor units. */
module Types {

  datatype Option<+T> = None | Some(value: T)

  datatype Side = Buy | Sell

  datatype Right = Call | Put

  datatype Kind = Spot | Future | OptionKind

  datatype InstrumentSpec = InstrumentSpec(
    underlying: int, kind: Kind, expiry: int, strike: int, right: Right, lotSize: int, tickSize: int)

  const UNKNOWN_INSTRUMENT := InstrumentSpec(-1, Spot, 0, 0, Call, 0, 0)

  /** Registry lookup.  The source throws for an id it never issued; `Ctx` checks every leg before an
      order exists, so the default below is never reached by a run (see `Matching.Registered`). */
  function SpecOf(registry: seq<InstrumentSpec>, id: int): InstrumentSpec {
    if 0 <= id < |registry| then registry[id] else UNKNOWN_INSTRUMENT
  }

  /** C++ integer division, truncating toward zero. */
  function TruncDiv(a: int, b: int): int
    requires b != 0
  {
    if a >= 0 then (if b > 0 then a / b else -(a / -b))
    else (if b > 0 then -(-a / b) else -a / -b)
  }

  datatype Quote = Quote(ts: int, last: int, bid: int, ask: int,
                         bidQty: int, askQty: int, lastQty: int, openInterest: int)
  {
    predicate TwoSided() { bid > 0 && ask > 0 }
    function Spread(): int { ask - bid }
    function Mid(): int { TruncDiv(bid + ask, 2) }
  }

  /** What the portfolio can see at one instant: the clock, the registry, and the most recent
      observation at or before the clock of every instrument that has printed. */
  datatype Market = Market(now: int, registry: seq<InstrumentSpec>, latest: map<int, Quote>)
  {
    function Latest(id: int): Option<Quote> {
      if id in latest then Some(latest[id]) else None
    }
  }

  function Abs(x: int): int { if x < 0 then -x else x }

  function Max(a: int, b: int): int { if a < b then b else a }

  function Min(a: int, b: int): int { if b < a then b else a }
}
