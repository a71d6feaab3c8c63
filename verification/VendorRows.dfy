/** The vendor's rows written out and read back: which column is which. */
module VendorRows {
  import opened Types
  import opened Sessions
  import opened Calendar
  import opened Words
  import opened VendorText

  // ----- writing ------------------------------------------------------------------------------

  function Whole(v: int): (s: string)
    ensures s != []
  {
    if v < 0 then "-" + Show(-v) else Show(v)
  }

  /** A price in minor units, with its two decimals. */
  function Amount(v: int): (s: string)
    ensures s != []
  {
    if v < 0 then "-" + Unsigned(-v) else Unsigned(v)
  }

  function Unsigned(v: nat): (s: string)
    ensures s != []
  {
    Show(v / 100) + "." + Two(v % 100)
  }

  /** Last price, bid and its quantity, ask and its quantity, last quantity, open interest. */
  function QuoteText(q: Quote): string {
    Amount(q.last) + ("," + (Amount(q.bid) + ("," + (Whole(q.bidQty) + (","
    + (Amount(q.ask) + ("," + (Whole(q.askQty) + ("," + (Whole(q.lastQty) + ("," + Whole(q.openInterest))))))))))))
  }

  /** Day, month and year, hour, minute and second, and the quote. */
  function RowText(f: Fields): string
    requires Sayable(f)
  {
    Two(f.day) + ("/" + (Two(f.month) + ("/" + (Whole(f.year) + (","
    + (Two(f.hour) + (":" + (Two(f.minute) + (":" + (Two(f.second) + ("," + QuoteText(f.quote))))))))))))
  }

  function Row(ticker: string, f: Fields): string
    requires Sayable(f)
  {
    ticker + ("," + RowText(f))
  }

  predicate Fits(v: int) { -0x8000_0000 < v < 0x8000_0000 }

  /** A date and time within their bounds, and 32-bit prices and quantities. */
  predicate Sayable(f: Fields) {
    && InBounds(f) && f.quote.ts == 0
    && Fits(f.quote.last) && Fits(f.quote.bid) && Fits(f.quote.ask)
    && Fits(f.quote.bidQty) && Fits(f.quote.askQty) && Fits(f.quote.lastQty)
  }

  // ----- spelling -----------------------------------------------------------------------------

  /** Months and digits are spelled as everyone spells them. */
  lemma MonthsAreSpelled(m: int, k: nat)
    requires 1 <= m <= 12 && k < 3
    ensures MonthName(m)[k] == "JANFEBMARAPRMAYJUNJULAUGSEPOCTNOVDEC"[3 * (m - 1) + k]
  {
  }

  lemma DigitsAreSpelled(d: int)
    requires 0 <= d <= 9
    ensures DigitChar(d) == "0123456789"[d] && DigitOf("0123456789"[d]) == d
  {
  }

  /** A call of strike 23000.00 and a put of strike 55.00, expiring in July 2025. */
  lemma TickersAreSpelled()
    ensures Parsed("NIFTY03JUL2523000CE") == Some(Symbol("NIFTY", 20250703, 2300000, Call))
    ensures Parsed("X31JUL2555PE") == Some(Symbol("X", 20250731, 5500, Types.Right.Put))
  {
    hide Parsed, Ticker;
    CallIsSpelled();
    PutIsSpelled();
    TickerRoundTrip(Symbol("NIFTY", 20250703, 2300000, Call));
    TickerRoundTrip(Symbol("X", 20250731, 5500, Types.Right.Put));
  }

  lemma CallIsSpelled()
    ensures Ticker(Symbol("NIFTY", 20250703, 2300000, Call)) == "NIFTY03JUL2523000CE"
  {
    hide Show, DateText;
    var y := Symbol("NIFTY", 20250703, 2300000, Call);
    StrikesAreSpelled();
    JulyIsSpelled(y, 3);
    assert Two(3) == "03";
    assert Ticker(y) == "NIFTY" + "03JUL25" + "23000" + "" + "CE";
  }

  lemma PutIsSpelled()
    ensures Ticker(Symbol("X", 20250731, 5500, Types.Right.Put)) == "X31JUL2555PE"
  {
    hide Show, DateText;
    var y := Symbol("X", 20250731, 5500, Types.Right.Put);
    StrikesAreSpelled();
    JulyIsSpelled(y, 31);
    assert Two(31) == "31";
    assert Ticker(y) == "X" + "31JUL25" + "55" + "" + "PE";
  }

  lemma JulyIsSpelled(y: Symbol, day: int)
    requires Printable(y) && Day(y.expiry) == day && Month(y.expiry) == 7 && Year(y.expiry) == 2025
    ensures DateText(y) == Two(day) + "JUL25"
  {
    hide Day, Month, Year, Two;
    TwentyFive();
    assert Two(day) + "JUL" + "25" == Two(day) + "JUL25";
  }

  lemma TwentyFive()
    ensures Two(25) == "25" && 2025 % 100 == 25
  {
  }

  lemma StrikesAreSpelled()
    ensures Show(23000) == "23000" && Show(55) == "55"
  {
    assert Show(2) == "2" && Show(23) == "23" && Show(230) == "230";
    assert Show(2300) == "2300";
    assert Show(5) == "5";
  }

  // ----- reading one field --------------------------------------------------------------------

  lemma {:induction false} RunStops(d: string, rest: string)
    requires AllDigits(d) && (rest == [] || !IsDigit(rest[0]))
    ensures DigitRun(d + rest) == |d|
  {
    if d == [] {
      assert d + rest == rest;
    } else {
      assert (d + rest)[1..] == d[1..] + rest;
      RunStops(d[1..], rest);
    }
  }

  /** From `p` on, the line reads `text`. */
  predicate At(line: string, p: nat, text: string) { p <= |line| && line[p..] == text }

  /** The run of digits at `p` is `d`. */
  predicate DigitsAt(line: string, p: nat, d: string) {
    p + |d| <= |line| && DigitRun(line[p..]) == |d| && line[p..p + |d|] == d && AllDigits(d)
  }

  lemma DigitsHere(line: string, p: nat, d: string, rest: string)
    requires At(line, p, d + rest) && AllDigits(d) && (rest == [] || !IsDigit(rest[0]))
    ensures DigitsAt(line, p, d) && At(line, p + |d|, rest)
  {
    RunStops(d, rest);
    assert line[p..][..|d|] == d && line[p..][|d|..] == rest;
  }

  /** What a number read at `p` is, when the digits there are `d`. */
  lemma IntIs(line: string, p: nat, from: nat, d: string)
    requires p <= |line| && from == (if SignAt(line, p) then p + 1 else p) && DigitsAt(line, from, d)
    ensures IntAt(line, p) == (if SignAt(line, p) && line[p] == '-' then 0 - Decimal(d) else Decimal(d), from + |d|)
  {
    hide Decimal, DigitRun, SignAt;
  }

  lemma SignHere(line: string, p: nat, c: char, tail: string)
    requires At(line, p, [c] + tail)
    ensures p < |line| && line[p] == c && At(line, p + 1, tail)
    ensures SignAt(line, p) <==> c == '-' || c == '+'
  {
    assert line[p] == line[p..][0];
    assert line[p + 1..] == line[p..][1..];
  }

  lemma NaturalHere(line: string, p: nat, d: string, rest: string)
    requires At(line, p, d + rest) && d != [] && AllDigits(d) && (rest == [] || !IsDigit(rest[0]))
    ensures IntAt(line, p) == (Decimal(d), p + |d|) && At(line, p + |d|, rest)
  {
    hide Decimal, DigitRun, IntAt, SignAt, At, DigitsAt;
    FirstApart(d, rest);
    SignHere(line, p, d[0], d[1..] + rest);
    AtStart(line, p, d + rest);
    DigitsHere(line, p, d, rest);
    IntIs(line, p, p, d);
  }

  lemma FirstApart(d: string, rest: string)
    requires d != []
    ensures d + rest == [d[0]] + (d[1..] + rest)
  {
  }

  lemma AtStart(line: string, p: nat, text: string)
    requires At(line, p, text)
    ensures p <= |line|
  {
  }

  lemma NegativeHere(line: string, p: nat, d: string, rest: string)
    requires At(line, p, "-" + (d + rest)) && AllDigits(d) && (rest == [] || !IsDigit(rest[0]))
    ensures IntAt(line, p) == (0 - Decimal(d), p + 1 + |d|) && At(line, p + 1 + |d|, rest)
  {
    hide Decimal, DigitRun, IntAt, SignAt, AllDigits, IsDigit, At, DigitsAt;
    SignHere(line, p, '-', d + rest);
    DigitsHere(line, p + 1, d, rest);
    IntIs(line, p, p + 1, d);
  }

  lemma Signed(d: string, rest: string)
    ensures "-" + d + rest == "-" + (d + rest)
  {
  }

  lemma WholeHere(line: string, p: nat, v: int, rest: string)
    requires At(line, p, Whole(v) + rest) && (rest == [] || !IsDigit(rest[0]))
    ensures var q := p + |Whole(v)|; IntAt(line, p) == (v, q) && At(line, q, rest)
  {
    hide Show, Decimal, IntAt, DigitRun;
    if v < 0 {
      ShowDecimal(-v);
      Signed(Show(-v), rest);
      NegativeHere(line, p, Show(-v), rest);
    } else {
      ShowDecimal(v);
      NaturalHere(line, p, Show(v), rest);
    }
  }

  lemma TwoHere(line: string, p: nat, n: int, rest: string)
    requires 0 <= n < 100 && At(line, p, Two(n) + rest) && (rest == [] || !IsDigit(rest[0]))
    ensures IntAt(line, p) == (n, p + 2) && At(line, p + 2, rest)
  {
    hide Two, Decimal, IntAt;
    TwoDecimal(n);
    NaturalHere(line, p, Two(n), rest);
  }

  lemma CentsOfTwo(n: int)
    requires 0 <= n < 100
    ensures Cents(Two(n)) == n
  {
    TwoDecimal(n);
    assert Two(n)[..2] == Two(n);
  }

  lemma CastKeeps(v: int)
    requires Fits(v)
    ensures Cast32(v) == v
  {
  }

  lemma UnsignedHere(line: string, p: nat, v: nat, rest: string)
    requires Fits(v) && At(line, p, Unsigned(v) + rest) && (rest == [] || !IsDigit(rest[0]))
    ensures var q := p + |Unsigned(v)|; PriceAt(line, p) == (v, q) && At(line, q, rest)
  {
    hide Show, Two, Decimal, DigitRun, Cast32, Cents;
    var units, cents := Show(v / 100), Two(v % 100);
    assert units + "." + cents + rest == units + (['.'] + (cents + rest));
    ShowDecimal(v / 100);
    DigitsHere(line, p, units, ['.'] + (cents + rest));
    SeparatorHere(line, p + |units|, '.', cents + rest);
    DigitsHere(line, p + |units| + 1, cents, rest);
    CentsOfTwo(v % 100);
    CastKeeps(v);
  }

  /** What a price read at `p` is, when the unsigned part of it is `v`. */
  lemma AmountIs(line: string, p: nat, from: nat, v: nat, q: nat)
    requires Fits(v) && p <= |line| && from == (if SignAt(line, p) then p + 1 else p) && PriceAt(line, from) == (v, q)
    ensures SignedPriceAt(line, p) == (if SignAt(line, p) && line[p] == '-' then 0 - v else v, q)
  {
    hide Cast32, PriceAt, SignAt;
    CastKeeps(0 - v);
  }

  lemma AmountHere(line: string, p: nat, v: int, rest: string)
    requires Fits(v) && At(line, p, Amount(v) + rest) && (rest == [] || !IsDigit(rest[0]))
    ensures var q := p + |Amount(v)|; SignedPriceAt(line, p) == (v, q) && At(line, q, rest)
  {
    hide SignedPriceAt, PriceAt, Unsigned, SignAt, IsDigit, At;
    if v < 0 {
      Signed(Unsigned(-v), rest);
      SignHere(line, p, '-', Unsigned(-v) + rest);
      UnsignedHere(line, p + 1, -v, rest);
      AmountIs(line, p, p + 1, -v, p + 1 + |Unsigned(-v)|);
    } else {
      UnsignedStarts(v);
      FirstApart(Unsigned(v), rest);
      SignHere(line, p, Unsigned(v)[0], Unsigned(v)[1..] + rest);
      UnsignedHere(line, p, v, rest);
      AmountIs(line, p, p, v, p + |Unsigned(v)|);
    }
  }

  lemma UnsignedStarts(v: nat)
    ensures Unsigned(v) != [] && Unsigned(v)[0] != '-' && Unsigned(v)[0] != '+'
  {
    hide Show;
    assert IsDigit(Show(v / 100)[0]);
  }

  lemma SeparatorHere(line: string, p: nat, c: char, rest: string)
    requires At(line, p, [c] + rest)
    ensures Past(line, p, c) == p + 1 && At(line, p + 1, rest)
  {
    assert line[p] == line[p..][0];
    assert line[p..][1..] == rest;
  }

  /** Each kind of field, with the separator after it: the value read, and what is left to read. */
  lemma WholeThen(line: string, p: nat, v: int, c: char, rest: string)
    requires At(line, p, Whole(v) + ([c] + rest)) && !IsDigit(c)
    ensures var (x, q) := IntAt(line, p); x == v && At(line, Past(line, q, c), rest)
  {
    hide IntAt, Past, Whole, At;
    WholeHere(line, p, v, [c] + rest);
    SeparatorHere(line, p + |Whole(v)|, c, rest);
  }

  lemma TwoThen(line: string, p: nat, n: int, c: char, rest: string)
    requires 0 <= n < 100 && At(line, p, Two(n) + ([c] + rest)) && !IsDigit(c)
    ensures var (x, q) := IntAt(line, p); x == n && At(line, Past(line, q, c), rest)
  {
    hide IntAt, Past, Two, At;
    TwoHere(line, p, n, [c] + rest);
    SeparatorHere(line, p + 2, c, rest);
  }

  lemma AmountThen(line: string, p: nat, v: int, c: char, rest: string)
    requires Fits(v) && At(line, p, Amount(v) + ([c] + rest)) && !IsDigit(c)
    ensures var (x, q) := SignedPriceAt(line, p); x == v && At(line, Past(line, q, c), rest)
  {
    hide SignedPriceAt, Past, Amount, At;
    AmountHere(line, p, v, [c] + rest);
    SeparatorHere(line, p + |Amount(v)|, c, rest);
  }

  // ----- reading a row ------------------------------------------------------------------------

  lemma TickerSkipped(ticker: string, rest: string)
    requires forall i :: 0 <= i < |ticker| ==> ticker[i] != ','
    ensures var line := ticker + ("," + rest); At(line, SkipField(line), rest)
  {
    var line := ticker + ("," + rest);
    StopAt(ticker, ',', rest);
    assert line[|ticker|..] == "," + rest;
    SeparatorHere(line, |ticker|, ',', rest);
  }

  lemma {:induction false} StopAt(a: string, c: char, rest: string)
    requires forall i :: 0 <= i < |a| ==> a[i] != c
    ensures Before(a + ([c] + rest), c) == |a|
  {
    if a == [] {
      assert a + ([c] + rest) == [c] + rest;
    } else {
      assert (a + ([c] + rest))[1..] == a[1..] + ([c] + rest);
      StopAt(a[1..], c, rest);
    }
  }

  /** The date and time of a row, and where its quote starts. */
  lemma TimeReads(line: string, p0: nat, f: Fields) returns (p6: nat)
    requires Sayable(f) && At(line, p0, RowText(f))
    ensures At(line, p6, QuoteText(f.quote))
    ensures var (day, p1) := IntAt(line, p0);
            var (month, p2) := IntAt(line, Past(line, p1, '/'));
            var (year, p3) := IntAt(line, Past(line, p2, '/'));
            var (hour, p4) := IntAt(line, Past(line, p3, ','));
            var (minute, p5) := IntAt(line, Past(line, p4, ':'));
            var (second, q) := IntAt(line, Past(line, p5, ':'));
            (day, month, year, hour, minute, second) == (f.day, f.month, f.year, f.hour, f.minute, f.second) && p6 == Past(line, q, ',')
  {
    hide IntAt, Past, Two, Whole, QuoteText, At;
    var t6 := QuoteText(f.quote);
    var t5 := Two(f.second) + ("," + t6);
    var t4 := Two(f.minute) + (":" + t5);
    var t3 := Two(f.hour) + (":" + t4);
    var t2 := Whole(f.year) + ("," + t3);
    var t1 := Two(f.month) + ("/" + t2);
    TwoThen(line, p0, f.day, '/', t1);
    var p1 := Past(line, IntAt(line, p0).1, '/');
    TwoThen(line, p1, f.month, '/', t2);
    var p2 := Past(line, IntAt(line, p1).1, '/');
    WholeThen(line, p2, f.year, ',', t3);
    var p3 := Past(line, IntAt(line, p2).1, ',');
    TwoThen(line, p3, f.hour, ':', t4);
    var p4 := Past(line, IntAt(line, p3).1, ':');
    TwoThen(line, p4, f.minute, ':', t5);
    var p5 := Past(line, IntAt(line, p4).1, ':');
    TwoThen(line, p5, f.second, ',', t6);
    p6 := Past(line, IntAt(line, p5).1, ',');
  }

  /** The seven numbers of a quote, each in its own column. */
  lemma QuoteReads(line: string, p6: nat, q: Quote)
    requires Fits(q.last) && Fits(q.bid) && Fits(q.ask) && At(line, p6, QuoteText(q))
    ensures var (last, p7) := SignedPriceAt(line, p6);
            var (bid, p8) := SignedPriceAt(line, Past(line, p7, ','));
            var (bidQty, p9) := IntAt(line, Past(line, p8, ','));
            var (ask, p10) := SignedPriceAt(line, Past(line, p9, ','));
            var (askQty, p11) := IntAt(line, Past(line, p10, ','));
            var (lastQty, p12) := IntAt(line, Past(line, p11, ','));
            var (openInterest, _) := IntAt(line, Past(line, p12, ','));
            (last, bid, bidQty, ask, askQty, lastQty, openInterest) == (q.last, q.bid, q.bidQty, q.ask, q.askQty, q.lastQty, q.openInterest)
  {
    hide IntAt, SignedPriceAt, Past, Whole, Amount, At;
    var t12 := Whole(q.openInterest);
    var t11 := Whole(q.lastQty) + ("," + t12);
    var t10 := Whole(q.askQty) + ("," + t11);
    var t9 := Amount(q.ask) + ("," + t10);
    var t8 := Whole(q.bidQty) + ("," + t9);
    var t7 := Amount(q.bid) + ("," + t8);
    AmountThen(line, p6, q.last, ',', t7);
    var p7 := Past(line, SignedPriceAt(line, p6).1, ',');
    AmountThen(line, p7, q.bid, ',', t8);
    var p8 := Past(line, SignedPriceAt(line, p7).1, ',');
    WholeThen(line, p8, q.bidQty, ',', t9);
    var p9 := Past(line, IntAt(line, p8).1, ',');
    AmountThen(line, p9, q.ask, ',', t10);
    var p10 := Past(line, SignedPriceAt(line, p9).1, ',');
    WholeThen(line, p10, q.askQty, ',', t11);
    var p11 := Past(line, IntAt(line, p10).1, ',');
    WholeThen(line, p11, q.lastQty, ',', t12);
    var p12 := Past(line, IntAt(line, p11).1, ',');
    assert Whole(q.openInterest) + [] == Whole(q.openInterest);
    WholeHere(line, p12, q.openInterest, []);
  }

  /** A row written in the vendor's order reads back field by field: every column is what it says it is. */
  lemma RowRoundTrip(ticker: string, f: Fields)
    requires Sayable(f) && forall i :: 0 <= i < |ticker| ==> ticker[i] != ','
    ensures ScanRow(Row(ticker, f)) == f
  {
    hide IntAt, SignedPriceAt, Past, SkipField, RowText, QuoteText, Cast32, At;
    var line := Row(ticker, f);
    TickerSkipped(ticker, RowText(f));
    var p6 := TimeReads(line, SkipField(line), f);
    QuoteReads(line, p6, f.quote);
    CastKeeps(f.quote.bidQty);
    CastKeeps(f.quote.askQty);
    CastKeeps(f.quote.lastQty);
  }

  // ----- taking a row -------------------------------------------------------------------------

  lemma {:induction false} CommasConcat(a: string, b: string)
    ensures Commas(a + b) == Commas(a) + Commas(b)
  {
    if b == [] {
      assert a + b == a;
    } else {
      assert (a + b)[..|a + b| - 1] == a + b[..|b| - 1];
      CommasConcat(a, b[..|b| - 1]);
    }
  }

  lemma {:induction false} NoCommas(s: string)
    requires forall i :: 0 <= i < |s| ==> s[i] != ','
    ensures Commas(s) == 0
  {
    if s != [] {
      NoCommas(s[..|s| - 1]);
    }
  }

  lemma FieldsHaveNoCommas(v: int, n: int)
    requires 0 <= n < 100
    ensures Commas(Whole(v)) == 0 && Commas(Amount(v)) == 0 && Commas(Two(n)) == 0
  {
    hide Show, Two, Commas;
    NoCommas(Whole(v));
    NoCommas(Amount(v));
    NoCommas(Two(n));
  }

  lemma OneComma(s: string)
    ensures Commas("," + s) == 1 + Commas(s)
    ensures Commas("/" + s) == Commas(s) && Commas(":" + s) == Commas(s)
  {
    CommasConcat(",", s);
    CommasConcat("/", s);
    CommasConcat(":", s);
    assert ","[..0] == "" && "/"[..0] == "" && ":"[..0] == "";
  }

  lemma Step(field: string, s: string)
    requires Commas(field) == 0
    ensures Commas(field + ("," + s)) == 1 + Commas(s)
    ensures Commas(field + ("/" + s)) == Commas(s) && Commas(field + (":" + s)) == Commas(s)
  {
    hide Commas;
    CommasConcat(field, "," + s);
    CommasConcat(field, "/" + s);
    CommasConcat(field, ":" + s);
    OneComma(s);
  }

  lemma QuoteCommas(q: Quote)
    ensures Commas(QuoteText(q)) == 6
  {
    hide Commas, Whole, Amount;
    FieldsHaveNoCommas(q.last, 0);
    FieldsHaveNoCommas(q.bid, 0);
    FieldsHaveNoCommas(q.bidQty, 0);
    FieldsHaveNoCommas(q.ask, 0);
    FieldsHaveNoCommas(q.askQty, 0);
    FieldsHaveNoCommas(q.lastQty, 0);
    FieldsHaveNoCommas(q.openInterest, 0);
    var t12 := Whole(q.openInterest);
    var t11 := Whole(q.lastQty) + ("," + t12);
    var t10 := Whole(q.askQty) + ("," + t11);
    var t9 := Amount(q.ask) + ("," + t10);
    var t8 := Whole(q.bidQty) + ("," + t9);
    var t7 := Amount(q.bid) + ("," + t8);
    Step(Whole(q.lastQty), t12);
    Step(Whole(q.askQty), t11);
    Step(Amount(q.ask), t10);
    Step(Whole(q.bidQty), t9);
    Step(Amount(q.bid), t8);
    Step(Amount(q.last), t7);
  }

  lemma RowCommas(ticker: string, f: Fields)
    requires Sayable(f) && forall i :: 0 <= i < |ticker| ==> ticker[i] != ','
    ensures Commas(Row(ticker, f)) == 9
  {
    hide Commas, Whole, Amount, Two, QuoteText;
    NoCommas(ticker);
    FieldsHaveNoCommas(f.year, f.day);
    FieldsHaveNoCommas(f.year, f.month);
    FieldsHaveNoCommas(f.year, f.hour);
    FieldsHaveNoCommas(f.year, f.minute);
    FieldsHaveNoCommas(f.year, f.second);
    QuoteCommas(f.quote);
    var t6 := QuoteText(f.quote);
    var t5 := Two(f.second) + ("," + t6);
    var t4 := Two(f.minute) + (":" + t5);
    var t3 := Two(f.hour) + (":" + t4);
    var t2 := Whole(f.year) + ("," + t3);
    var t1 := Two(f.month) + ("/" + t2);
    Step(Two(f.second), t6);
    Step(Two(f.minute), t5);
    Step(Two(f.hour), t4);
    Step(Whole(f.year), t3);
    Step(Two(f.month), t2);
    Step(Two(f.day), t1);
    Step(ticker, RowText(f));
  }

  /** So a written row of the day, not earlier than the last one, is read exactly: its quote is kept at the
      instant its wall clock names. */
  lemma WrittenRowTaken(l: Load, ticker: string, f: Fields, offset: int)
    requires Sayable(f) && forall i :: 0 <= i < |ticker| ==> ticker[i] != ','
    requires l.expected <= 0 || l.expected == f.year * 10000 + f.month * 100 + f.day
    requires var ts := TimestampOf(DateOf(f), SecondOf(f), offset); l.rows == [] || l.rows[|l.rows| - 1].ts <= ts
    ensures var date, second := f.year * 10000 + f.month * 100 + f.day, f.hour * 3600 + f.minute * 60 + f.second;
            var kept := f.quote.(ts := TimestampOf(date, second, offset));
            Take(l, Row(ticker, f), offset) == Load(date, l.rows + [kept], l.read + 1, l.skipped)
  {
    hide ScanRow, Commas, Row, TimestampOf;
    RowRoundTrip(ticker, f);
    RowCommas(ticker, f);
  }

  /** A line is kept exactly if it has ten columns, names a time of day on a day from 1990 to 2100, that day
      is the one the file is of, and it is not earlier than the row before it; any other is counted as
      skipped and changes nothing else. */
  lemma KeptLaw(l: Load, line: string, offset: int)
    ensures var f, l' := ScanRow(line), Take(l, line, offset);
            var date := f.year * 10000 + f.month * 100 + f.day;
            var ts := TimestampOf(date, f.hour * 3600 + f.minute * 60 + f.second, offset);
            if Commas(line) == 9
               && 1990 <= f.year <= 2100 && 1 <= f.month <= 12 && 1 <= f.day <= 31
               && 0 <= f.hour < 24 && 0 <= f.minute < 60 && 0 <= f.second < 60
               && (l.expected <= 0 || l.expected == date) && (l.rows == [] || l.rows[|l.rows| - 1].ts <= ts)
            then l'.read == l.read + 1 && l'.skipped == l.skipped && l'.expected == date && l'.rows == l.rows + [f.quote.(ts := ts)]
            else l' == l.(skipped := l.skipped + 1)
  {
    hide ScanRow, Commas, TimestampOf;
  }
}
