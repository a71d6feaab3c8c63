/** Dates as yyyymmdd integers and their day numbers. */
module Calendar {
  import opened Types

  const NANOS_PER_SECOND: int := 1_000_000_000
  const IST_OFFSET_SECONDS: int := 19800

  function Year(date: int): int { TruncDiv(date, 10000) }

  function TruncMod(a: int, b: int): int
    requires b != 0
  {
    a - TruncDiv(a, b) * b
  }

  function Month(date: int): int { TruncMod(TruncDiv(date, 100), 100) }

  function Day(date: int): int { TruncMod(date, 100) }

  /** Days since 1970-01-01 of a proleptic Gregorian date, years counted from March. */
  function DaysFromCivil(year: int, m: int, d: int): int {
    var y := if m <= 2 then year - 1 else year;
    var era := TruncDiv(if y >= 0 then y else y - 399, 400);
    var yoe := y - era * 400;
    var mp := (m + 9) % 12;
    var doy := (153 * mp + 2) / 5 + d - 1;
    var doe := yoe * 365 + yoe / 4 - yoe / 100 + doy;
    era * 146097 + doe - 719468
  }

  function TimestampOf(date: int, secondsOfDay: int, utcOffset: int): int {
    (DaysFromCivil(Year(date), Month(date), Day(date)) * 86400 + secondsOfDay - utcOffset) * NANOS_PER_SECOND
  }
}
