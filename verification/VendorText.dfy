/** The vendor's text: tickers and comma-separated rows. */
module VendorText {
  import opened Types
  import opened Sessions
  import opened Calendar
  import opened Words

  predicate IsDigit(c: char) { '0' <= c <= '9' }

  function DigitOf(c: char): int
    requires IsDigit(c)
  {
    c as int - '0' as int
  }

  // ----- scanners -----------------------------------------------------------------------------

  /** How many of the leading characters are digits. */
  function DigitRun(s: string): (n: nat)
    ensures n <= |s| && (n < |s| ==> !IsDigit(s[n])) && forall i :: 0 <= i < n ==> IsDigit(s[i])
  {
    if s == [] || !IsDigit(s[0]) then 0 else 1 + DigitRun(s[1..])
  }

  predicate AllDigits(s: string) { forall i :: 0 <= i < |s| ==> IsDigit(s[i]) }

  function Decimal(s: string): (v: nat)
    requires AllDigits(s)
  {
    if s == [] then 0 else 10 * Decimal(s[..|s| - 1]) + DigitOf(s[|s| - 1])
  }

  lemma NextDigit(s: string, a: nat, q: nat)
    requires a <= q < |s| && AllDigits(s[a..q]) && IsDigit(s[q])
    ensures AllDigits(s[a..q + 1]) && Decimal(s[a..q + 1]) == 10 * Decimal(s[a..q]) + DigitOf(s[q])
    ensures DigitRun(s[q..]) == 1 + DigitRun(s[q + 1..])
  {
    assert s[a..q + 1][..q - a] == s[a..q] && s[q..][1..] == s[q + 1..];
  }

  /** Reads digits from `p`; returns their value and the position after them. */
  method ScanDigits(s: string, p: nat) returns (v: nat, q: nat)
    requires p <= |s|
    ensures p <= q == p + DigitRun(s[p..]) <= |s| && AllDigits(s[p..q]) && v == Decimal(s[p..q])
  {
    hide Decimal, DigitOf;
    v, q := 0, p;
    NoDigits(s, p);
    while q < |s| && IsDigit(s[q])
      invariant p <= q <= |s| && AllDigits(s[p..q]) && v == Decimal(s[p..q])
      invariant DigitRun(s[p..]) == q - p + DigitRun(s[q..])
    {
      NextDigit(s, p, q);
      v := v * 10 + DigitOf(s[q]);
      q := q + 1;
    }
  }

  lemma NoDigits(s: string, p: nat)
    requires p <= |s|
    ensures AllDigits(s[p..p]) && Decimal(s[p..p]) == 0
  {
  }

  /** The first two decimals in minor units; further ones are below the tick grid and dropped. */
  function Cents(frac: string): int
    requires AllDigits(frac)
  {
    if |frac| == 0 then 0 else if |frac| == 1 then 10 * Decimal(frac) else Decimal(frac[..2])
  }

  /** Digits `p..q` have been scanned, and the first `digits` of them, at most two, make up `v`. */
  ghost predicate CentsSoFar(s: string, p: nat, q: nat, digits: nat, v: int) {
    && p <= q <= |s| && AllDigits(s[p..q]) && DigitRun(s[p..]) == q - p + DigitRun(s[q..])
    && digits == Min(2, q - p) && AllDigits(s[p..p + digits]) && v == Decimal(s[p..p + digits])
  }

  lemma CentsNone(s: string, p: nat)
    requires p <= |s|
    ensures CentsSoFar(s, p, p, 0, 0)
  {
    NoDigits(s, p);
  }

  lemma CentsNext(s: string, p: nat, q: nat, digits: nat, v: int)
    requires CentsSoFar(s, p, q, digits, v) && q < |s| && IsDigit(s[q])
    ensures if digits < 2 then CentsSoFar(s, p, q + 1, digits + 1, v * 10 + DigitOf(s[q])) else CentsSoFar(s, p, q + 1, digits, v)
  {
    hide Decimal, DigitOf;
    NextDigit(s, p, q);
  }

  lemma CentsPadded(s: string, p: nat, q: nat, digits: nat, v: int)
    requires CentsSoFar(s, p, q, digits, v)
    ensures Cents(s[p..q]) == if digits == 0 then 100 * v else if digits == 1 then 10 * v else v
  {
    assert s[p..q][..digits] == s[p..p + digits];
  }

  /** Scans the digits after a decimal point at `p`. */
  method ScanCents(s: string, p: nat) returns (v: int, q: nat)
    requires p <= |s|
    ensures p <= q == p + DigitRun(s[p..]) <= |s| && AllDigits(s[p..q]) && v == Cents(s[p..q])
  {
    hide Decimal, DigitOf, Cents;
    v, q := 0, p;
    CentsNone(s, p);
    var digits := 0;
    while q < |s| && IsDigit(s[q])
      invariant CentsSoFar(s, p, q, digits, v)
    {
      CentsNext(s, p, q, digits, v);
      if digits < 2 {
        v := v * 10 + DigitOf(s[q]);
        digits := digits + 1;
      }
      q := q + 1;
    }
    CentsPadded(s, p, q, digits, v);
    while digits < 2
      invariant 0 <= digits <= 2
      invariant Cents(s[p..q]) == if digits == 0 then 100 * v else if digits == 1 then 10 * v else v
    {
      v := v * 10;
      digits := digits + 1;
    }
  }

  /** A price without sign: whole units, and cents if a point follows. */
  function PriceAt(s: string, p: nat): (r: (int, nat))
    requires p <= |s|
    ensures p <= r.1 <= |s|
  {
    var w := p + DigitRun(s[p..]);
    var whole := 100 * Decimal(s[p..w]);
    if w < |s| && s[w] == '.' then
      var q := w + 1 + DigitRun(s[w + 1..]);
      (Cast32(whole + Cents(s[w + 1..q])), q)
    else (Cast32(whole), w)
  }

  method ScanPrice(s: string, p: nat) returns (v: int, q: nat)
    requires p <= |s|
    ensures (v, q) == PriceAt(s, p)
  {
    hide Decimal, Cents, Cast32, DigitRun;
    var whole: nat;
    var cents := 0;
    whole, q := ScanDigits(s, p);
    if q < |s| && s[q] == '.' {
      cents, q := ScanCents(s, q + 1);
    }
    v := Cast32(whole * 100 + cents);
  }

  // ----- tickers ------------------------------------------------------------------------------

  function MonthName(m: int): (s: string)
    ensures |s| == 3
  {
    if m == 1 then "JAN" else if m == 2 then "FEB" else if m == 3 then "MAR" else if m == 4 then "APR"
    else if m == 5 then "MAY" else if m == 6 then "JUN" else if m == 7 then "JUL" else if m == 8 then "AUG"
    else if m == 9 then "SEP" else if m == 10 then "OCT" else if m == 11 then "NOV" else "DEC"
  }

  function MonthFrom(s: string, m: nat): (r: int)
    requires m <= 12
    ensures 0 <= r <= 12
  {
    if m == 0 then 0 else if s == MonthName(m) then m else MonthFrom(s, m - 1)
  }

  datatype Symbol = Symbol(underlying: string, expiry: int, strike: int, right: Types.Right)

  function Before(s: string, stop: char): (n: nat)
    ensures n <= |s| && (n < |s| ==> s[n] == stop) && forall i :: 0 <= i < n ==> s[i] != stop
  {
    if s == [] || s[0] == stop then 0 else 1 + Before(s[1..], stop)
  }

  function FirstDigit(s: string): (n: nat)
    ensures n <= |s| && (n < |s| ==> IsDigit(s[n])) && forall i :: 0 <= i < n ==> !IsDigit(s[i])
  {
    if s == [] || IsDigit(s[0]) then 0 else 1 + FirstDigit(s[1..])
  }

  /** What a ticker says, or nothing if it does not read as an option's. */
  function Parsed(ticker: string): Option<Symbol> {
    var cut := ticker[..Before(ticker, '.')];
    if |cut| < 12 then None
    else
      var tail, text := cut[|cut| - 2..], cut[..|cut| - 2];
      if tail != "CE" && tail != "PE" then None
      else
        var i := FirstDigit(text);
        if i == 0 || i + 7 >= |text| then None
        else ParsedRest(text[..i], text[i..], if tail == "CE" then Call else Types.Right.Put)
  }

  function ParsedRest(underlying: string, rest: string, right: Types.Right): Option<Symbol>
    requires |rest| > 7
  {
    var month := MonthFrom(rest[2..5], 12);
    if !AllDigits(rest[..2]) || month == 0 || !AllDigits(rest[5..7]) || !AllDigits(rest[7..]) then None
    else
      var day, year, strike := Decimal(rest[..2]), 2000 + Decimal(rest[5..7]), PriceAt(rest[7..], 0).0;
      if strike <= 0 || day < 1 || day > 31 then None
      else Some(Symbol(underlying, year * 10000 + month * 100 + day, strike, right))
  }

  /** The ticker parser: the underlying runs up to the first digit. */
  method ParseSymbol(ticker: string) returns (r: Option<Symbol>)
    ensures r == Parsed(ticker)
  {
    hide ParsedRest;
    var cut := ticker[..Before(ticker, '.')];
    if |cut| < 12 { return None; }
    var tail, text := cut[|cut| - 2..], cut[..|cut| - 2];
    if tail != "CE" && tail != "PE" { return None; }
    var i := 0;
    assert text[0..] == text;
    while i < |text| && !IsDigit(text[i])
      invariant 0 <= i <= |text| && FirstDigit(text) == i + FirstDigit(text[i..])
    {
      assert text[i..][1..] == text[i + 1..];
      i := i + 1;
    }
    if i == 0 || i + 7 >= |text| { return None; }
    r := ParseRest(text[..i], text[i..], if tail == "CE" then Call else Types.Right.Put);
  }

  /** Day, month, year and strike. */
  method ParseRest(underlying: string, rest: string, right: Types.Right) returns (r: Option<Symbol>)
    requires |rest| > 7
    ensures r == ParsedRest(underlying, rest, right)
  {
    hide MonthFrom, Decimal, PriceAt;
    var month := MonthFrom(rest[2..5], 12);
    if !AllDigits(rest[..2]) || month == 0 || !AllDigits(rest[5..7]) || !AllDigits(rest[7..]) { return None; }
    var strike, _ := ScanPrice(rest[7..], 0);
    var day, year := Decimal(rest[..2]), 2000 + Decimal(rest[5..7]);
    if strike <= 0 || day < 1 || day > 31 { return None; }
    r := Some(Symbol(underlying, year * 10000 + month * 100 + day, strike, right));
  }

  // ----- printing a ticker --------------------------------------------------------------------

  function DigitChar(d: int): (c: char)
    requires 0 <= d <= 9
    ensures IsDigit(c) && DigitOf(c) == d
  {
    ('0' as int + d) as char
  }

  function Show(n: nat): (s: string)
    ensures s != [] && AllDigits(s)
  {
    if n < 10 then [DigitChar(n)] else Show(n / 10) + [DigitChar(n % 10)]
  }

  function Two(n: int): (s: string)
    requires 0 <= n < 100
    ensures |s| == 2 && AllDigits(s)
  {
    [DigitChar(n / 10), DigitChar(n % 10)]
  }

  /** An option a ticker can name: no digit or point in the underlying, a date of this century, and a
      positive strike in minor units that fits its field. */
  predicate Printable(y: Symbol) {
    && y.underlying != [] && (forall i :: 0 <= i < |y.underlying| ==> !IsDigit(y.underlying[i]) && y.underlying[i] != '.')
    && 2000 <= Year(y.expiry) <= 2099 && 1 <= Month(y.expiry) <= 12 && 1 <= Day(y.expiry) <= 31
    && 0 < y.strike < 0x8000_0000
  }

  function Suffix(right: Types.Right): string { if right.Call? then "CE" else "PE" }

  /** The decimals of a strike in minor units, as short as they can be; nothing if it is whole. */
  function Decimals(strike: nat): (s: string)
    ensures s == [] <==> strike % 100 == 0
    ensures s != [] ==> s[0] == '.'
  {
    if strike % 100 == 0 then ""
    else if strike % 10 == 0 then "." + [DigitChar(strike / 10 % 10)]
    else "." + Two(strike % 100)
  }

  /** The ticker up to and including the whole units of the strike. */
  function Stem(y: Symbol): string
    requires Printable(y)
  {
    y.underlying + DateText(y) + Show(y.strike / 100)
  }

  function DateText(y: Symbol): (s: string)
    requires Printable(y)
    ensures |s| == 7
  {
    Two(Day(y.expiry)) + MonthName(Month(y.expiry)) + Two(Year(y.expiry) % 100)
  }

  /** The vendor's ticker of an option: underlying, day, month, year, strike, right. */
  function Ticker(y: Symbol): string
    requires Printable(y)
  {
    Stem(y) + Decimals(y.strike) + Suffix(y.right)
  }

  lemma {:induction false} ShowDecimal(n: nat)
    ensures Decimal(Show(n)) == n
  {
    var s := Show(n);
    if n < 10 {
      assert s[..0] == [];
    } else {
      ShowDecimal(n / 10);
      assert s[..|s| - 1] == Show(n / 10);
    }
  }

  lemma TwoDecimal(n: int)
    requires 0 <= n < 100
    ensures Decimal(Two(n)) == n
  {
    var s := Two(n);
    assert s[..1][..0] == [];
    assert Decimal(s[..1]) == DigitOf(s[0]);
  }

  /** A month's name tells the month. */
  lemma MonthNames(m: nat)
    requires 1 <= m <= 12
    ensures MonthFrom(MonthName(m), 12) == m && Pointless(MonthName(m))
  {
    NameFrom(m, 12);
  }

  lemma {:induction false} NameFrom(m: nat, k: nat)
    requires 1 <= m <= k <= 12
    ensures MonthFrom(MonthName(m), k) == m
  {
    if m < k {
      NamesDiffer(m, k);
      NameFrom(m, k - 1);
    }
  }

  lemma NamesDiffer(m: nat, k: nat)
    requires 1 <= m < k <= 12
    ensures MonthName(m) != MonthName(k)
  {
    var a, b := MonthName(m), MonthName(k);
    assert a[0] != b[0] || a[1] != b[1] || a[2] != b[2];
  }

  predicate Pointless(s: string) { forall i :: 0 <= i < |s| ==> s[i] != '.' }

  lemma {:induction false} NoStop(s: string, stop: char)
    requires forall i :: 0 <= i < |s| ==> s[i] != stop
    ensures Before(s, stop) == |s|
  {
    if s != [] {
      NoStop(s[1..], stop);
    }
  }

  lemma {:induction false} DigitsStart(a: string, b: string)
    requires (forall i :: 0 <= i < |a| ==> !IsDigit(a[i])) && b != [] && IsDigit(b[0])
    ensures FirstDigit(a + b) == |a|
  {
    if a == [] {
      assert a + b == b;
    } else {
      assert (a + b)[1..] == a[1..] + b;
      DigitsStart(a[1..], b);
    }
  }

  lemma {:induction false} WholeRun(s: string)
    requires AllDigits(s)
    ensures DigitRun(s) == |s|
  {
    if s != [] {
      WholeRun(s[1..]);
    }
  }

  lemma WholePrice(n: nat)
    requires 100 * n < 0x8000_0000
    ensures PriceAt(Show(n), 0).0 == 100 * n
  {
    var s := Show(n);
    ShowDecimal(n);
    WholeRun(s);
    assert s[0..] == s && s[0..|s|] == s;
  }

  lemma DateParts(date: int)
    requires 2000 <= Year(date) <= 2099
    ensures date == Year(date) * 10000 + Month(date) * 100 + Day(date) && 2000 + Year(date) % 100 == Year(date)
  {
  }

  lemma RestParses(y: Symbol, rest: string)
    requires Printable(y) && y.strike % 100 == 0 && rest == DateText(y) + Show(y.strike / 100)
    ensures |rest| > 7 && ParsedRest(y.underlying, rest, y.right) == Some(y)
  {
    hide MonthFrom, Decimal, PriceAt, Show, Two, Year, Month, Day;
    MonthNames(Month(y.expiry));
    TwoDecimal(Day(y.expiry));
    TwoDecimal(Year(y.expiry) % 100);
    WholePrice(y.strike / 100);
    DateParts(y.expiry);
    assert rest[..2] == Two(Day(y.expiry)) && rest[2..5] == MonthName(Month(y.expiry));
    assert rest[5..7] == Two(Year(y.expiry) % 100) && rest[7..] == Show(y.strike / 100);
  }

  /** A printed ticker parses back to the same option if and only if its strike is whole and it has at
      least twelve characters; otherwise it does not parse at all. */
  lemma TickerRoundTrip(y: Symbol)
    requires Printable(y)
    ensures Parsed(Ticker(y)) == if y.strike % 100 == 0 && |Ticker(y)| >= 12 then Some(y) else None
  {
    hide Parsed, Stem, Decimals;
    if y.strike % 100 == 0 {
      WholeTicker(y);
    } else {
      StemHasNoPoint(y);
      assert Ticker(y) == Stem(y) + (Decimals(y.strike) + Suffix(y.right));
      PointCutsTicker(Stem(y), Decimals(y.strike) + Suffix(y.right));
      StemEndsInDigits(y);
      NoRight(Stem(y));
    }
  }

  lemma WholeTicker(y: Symbol)
    requires Printable(y) && y.strike % 100 == 0
    ensures Parsed(Ticker(y)) == if |Ticker(y)| >= 12 then Some(y) else None
  {
    hide MonthFrom, Decimal, PriceAt, Show, DateText, ParsedRest, Year, Month, Day;
    var rest := DateText(y) + Show(y.strike / 100);
    var text, t := Stem(y), Ticker(y);
    RestParses(y, rest);
    assert text == y.underlying + rest && t == text + Suffix(y.right);
    StemHasNoPoint(y);
    NoStop(t, '.');
    assert t[..|t| - 2] == text && t[|t| - 2..] == Suffix(y.right) && t[..|t|] == t;
    DateStarts(y);
    DigitsStart(y.underlying, rest);
    assert text[..|y.underlying|] == y.underlying && text[|y.underlying|..] == rest;
  }

  lemma DateStarts(y: Symbol)
    requires Printable(y)
    ensures IsDigit(DateText(y)[0]) && Pointless(DateText(y))
  {
    hide Two, Year, Month, Day;
    MonthNames(Month(y.expiry));
    DigitsAreNotPoints(Two(Day(y.expiry)));
    DigitsAreNotPoints(Two(Year(y.expiry) % 100));
  }

  lemma StemHasNoPoint(y: Symbol)
    requires Printable(y)
    ensures Pointless(Stem(y))
  {
    hide Show, DateText;
    DateStarts(y);
    DigitsAreNotPoints(Show(y.strike / 100));
  }

  lemma StemEndsInDigits(y: Symbol)
    requires Printable(y)
    ensures |Stem(y)| > 7 && IsDigit(Stem(y)[|Stem(y)| - 1])
  {
    hide Show, DateText;
    var units := Show(y.strike / 100);
    assert Stem(y)[|Stem(y)| - 1] == units[|units| - 1];
  }

  /** Text that ends in a digit names no right. */
  lemma NoRight(text: string)
    requires Pointless(text) && text != [] && IsDigit(text[|text| - 1])
    ensures Parsed(text).None?
  {
    hide ParsedRest;
    NoStop(text, '.');
    assert text[..|text|] == text;
    if |text| >= 12 {
      assert text[|text| - 2..][1] == text[|text| - 1];
    }
  }

  lemma DigitsAreNotPoints(s: string)
    requires AllDigits(s)
    ensures Pointless(s)
  {
  }

  /** Everything from the first point on is ignored. */
  lemma PointCutsTicker(a: string, b: string)
    requires Pointless(a) && b != [] && b[0] == '.'
    ensures Parsed(a + b) == Parsed(a)
  {
    hide ParsedRest;
    PointAt(a, b);
    NoStop(a, '.');
    assert (a + b)[..|a|] == a && a[..|a|] == a;
  }

  lemma {:induction false} PointAt(a: string, b: string)
    requires Pointless(a) && b != [] && b[0] == '.'
    ensures Before(a + b, '.') == |a|
  {
    if a == [] {
      assert a + b == b;
    } else {
      assert (a + b)[1..] == a[1..] + b;
      PointAt(a[1..], b);
    }
  }

  // ----- rows ---------------------------------------------------------------------------------

  predicate NewLine(c: char) { c == '\n' || c == '\r' }

  function LineEnd(s: string): (n: nat)
    ensures n <= |s| && (n < |s| ==> NewLine(s[n])) && forall i :: 0 <= i < n ==> !NewLine(s[i])
  {
    if s == [] || NewLine(s[0]) then 0 else 1 + LineEnd(s[1..])
  }

  /** The non-blank lines of a buffer. */
  function Lines(s: string): seq<string>
    decreases |s|
  {
    if s == [] then []
    else if NewLine(s[0]) then Lines(s[1..])
    else [s[..LineEnd(s)]] + Lines(s[LineEnd(s)..])
  }

  function Commas(line: string): nat {
    if line == [] then 0 else Commas(line[..|line| - 1]) + if line[|line| - 1] == ',' then 1 else 0
  }

  /** The fields of a row, as scanned. */
  datatype Fields = Fields(day: int, month: int, year: int, hour: int, minute: int, second: int, quote: Quote)

  predicate SignAt(s: string, p: nat) { p < |s| && (s[p] == '-' || s[p] == '+') }

  lemma RunIsDigits(s: string, from: nat)
    requires from <= |s|
    ensures AllDigits(s[from..from + DigitRun(s[from..])])
  {
    var run := s[from..from + DigitRun(s[from..])];
    forall i | 0 <= i < |run| ensures IsDigit(run[i]) {
      assert run[i] == s[from..][i];
    }
  }

  /** An optional sign and digits: the value, and the position after them. */
  function IntAt(s: string, p: nat): (r: (int, nat))
    requires p <= |s|
    ensures p <= r.1 <= |s|
  {
    var from := if SignAt(s, p) then p + 1 else p;
    var q := from + DigitRun(s[from..]);
    RunIsDigits(s, from);
    (if SignAt(s, p) && s[p] == '-' then 0 - Decimal(s[from..q]) else Decimal(s[from..q]), q)
  }

  /** A price with an optional sign. */
  function SignedPriceAt(s: string, p: nat): (r: (int, nat))
    requires p <= |s|
    ensures p <= r.1 <= |s|
  {
    var (v, q) := PriceAt(s, if SignAt(s, p) then p + 1 else p);
    (if SignAt(s, p) && s[p] == '-' then Cast32(-v) else v, q)
  }

  /** Steps over one separator if it is there. */
  function Past(s: string, p: nat, c: char): (q: nat)
    requires p <= |s|
    ensures p <= q <= |s|
  {
    if p < |s| && s[p] == c then p + 1 else p
  }

  function SkipField(line: string): (p: nat)
    ensures p <= |line|
  {
    Past(line, Before(line, ','), ',')
  }

  /** The ten fields of a row.  No position ever passes the end of the line. */
  function ScanRow(line: string): Fields {
    var (day, p1) := IntAt(line, SkipField(line));
    var (month, p2) := IntAt(line, Past(line, p1, '/'));
    var (year, p3) := IntAt(line, Past(line, p2, '/'));
    var (hour, p4) := IntAt(line, Past(line, p3, ','));
    var (minute, p5) := IntAt(line, Past(line, p4, ':'));
    var (second, p6) := IntAt(line, Past(line, p5, ':'));
    var (last, p7) := SignedPriceAt(line, Past(line, p6, ','));
    var (bid, p8) := SignedPriceAt(line, Past(line, p7, ','));
    var (bidQty, p9) := IntAt(line, Past(line, p8, ','));
    var (ask, p10) := SignedPriceAt(line, Past(line, p9, ','));
    var (askQty, p11) := IntAt(line, Past(line, p10, ','));
    var (lastQty, p12) := IntAt(line, Past(line, p11, ','));
    var (openInterest, _) := IntAt(line, Past(line, p12, ','));
    Fields(day, month, year, hour, minute, second,
           Quote(0, last, bid, ask, Cast32(bidQty), Cast32(askQty), Cast32(lastQty), openInterest))
  }

  /** The bounds a row's date and time must keep. */
  predicate InBounds(f: Fields) {
    && 1990 <= f.year <= 2100 && 1 <= f.month <= 12 && 1 <= f.day <= 31
    && 0 <= f.hour <= 23 && 0 <= f.minute <= 59 && 0 <= f.second <= 59
  }

  function DateOf(f: Fields): int { f.year * 10000 + f.month * 100 + f.day }

  function SecondOf(f: Fields): int { f.hour * 3600 + f.minute * 60 + f.second }

  /** Where a day's load stands: the one date it may carry (zero until the first row), the rows kept, and
      how many lines were kept and skipped. */
  datatype Load = Load(expected: int, rows: seq<Quote>, read: nat, skipped: nat)

  /** One line. */
  function Take(l: Load, line: string, offset: int): Load {
    var f := ScanRow(line);
    var ts := TimestampOf(DateOf(f), SecondOf(f), offset);
    if Commas(line) != 9 || !InBounds(f) || (l.expected > 0 && DateOf(f) != l.expected) then l.(skipped := l.skipped + 1)
    else if l.rows != [] && ts < l.rows[|l.rows| - 1].ts then l.(skipped := l.skipped + 1)
    else Load(DateOf(f), l.rows + [f.quote.(ts := ts)], l.read + 1, l.skipped)
  }

  function TakeAll(l: Load, lines: seq<string>, offset: int): Load
    decreases |lines|
  {
    if lines == [] then l else TakeAll(Take(l, lines[0], offset), lines[1..], offset)
  }

  /** Rows kept so far: time-ordered, and all within the one civil day. */
  ghost predicate OneDay(l: Load, offset: int) {
    && TimeSorted(l.rows) && l.expected >= 0 && (l.rows != [] ==> l.expected > 0)
    && forall i :: 0 <= i < |l.rows| ==>
         TimestampOf(l.expected, 0, offset) <= l.rows[i].ts < TimestampOf(l.expected, 86400, offset)
  }

  lemma TakeKeeps(l: Load, line: string, offset: int)
    requires OneDay(l, offset)
    ensures var l' := Take(l, line, offset);
            && OneDay(l', offset) && l.rows <= l'.rows && l'.read - l.read == |l'.rows| - |l.rows|
            && l'.read + l'.skipped == l.read + l.skipped + 1
            && (l.expected > 0 ==> l'.expected == l.expected)
  {
    hide Commas, DaysFromCivil, ScanRow;
  }

  /** Every non-blank line after the header is counted once, as read or as skipped; what is read is the
      rows kept, in time order, all inside one civil day. */
  lemma {:induction false} LinesAccounted(l: Load, lines: seq<string>, offset: int)
    requires OneDay(l, offset)
    ensures var r := TakeAll(l, lines, offset);
            && OneDay(r, offset) && l.rows <= r.rows && r.read - l.read == |r.rows| - |l.rows|
            && r.read + r.skipped == l.read + l.skipped + |lines|
            && (l.expected > 0 ==> r.expected == l.expected)
    decreases |lines|
  {
    hide Take, OneDay;
    if lines != [] {
      TakeKeeps(l, lines[0], offset);
      LinesAccounted(Take(l, lines[0], offset), lines[1..], offset);
    }
  }

  /** Drops the header line, if the buffer starts with one. */
  function Body(data: string): string {
    if |data| > 6 && data[..6] == "Ticker" then
      var n := Before(data, '\n');
      if n < |data| then data[n + 1..] else []
    else data
  }

  lemma {:induction false} BlankSkipped(data: string, p: nat)
    requires p < |data| && NewLine(data[p])
    ensures Lines(data[p..]) == Lines(data[p + 1..])
  {
    assert data[p..][1..] == data[p + 1..];
  }

  lemma LineTaken(data: string, p: nat, q: nat)
    requires p < q <= |data| && (forall i :: p <= i < q ==> !NewLine(data[i])) && (q < |data| ==> NewLine(data[q]))
    ensures Lines(data[p..]) == [data[p..q]] + Lines(data[q..])
  {
    EndAt(data[p..], q - p);
    assert data[p..][..q - p] == data[p..q] && data[p..][q - p..] == data[q..];
  }

  lemma {:induction false} EndAt(s: string, n: nat)
    requires n <= |s| && (forall i :: 0 <= i < n ==> !NewLine(s[i])) && (n < |s| ==> NewLine(s[n]))
    ensures LineEnd(s) == n
  {
    if n > 0 {
      EndAt(s[1..], n - 1);
    }
  }

  /** One file's rows, line by line. */
  method ParseRows(data: string, expected: int, offset: int) returns (l: Load)
    requires expected >= 0
    ensures l == TakeAll(Load(expected, [], 0, 0), Lines(Body(data)), offset)
    ensures OneDay(l, offset) && l.read == |l.rows| && l.read + l.skipped == |Lines(Body(data))|
  {
    hide Take, Commas, OneDay;
    var s := Body(data);
    l := Load(expected, [], 0, 0);
    ghost var start := l;
    StartOfFile(expected, offset);
    LinesAccounted(start, Lines(s), offset);
    var p := 0;
    assert s[0..] == s;
    while p < |s|
      invariant 0 <= p <= |s| && TakeAll(l, Lines(s[p..]), offset) == TakeAll(start, Lines(s), offset)
    {
      if NewLine(s[p]) {
        BlankSkipped(s, p);
        p := p + 1;
        continue;
      }
      var scan := p;
      while scan < |s| && !NewLine(s[scan])
        invariant p <= scan <= |s| && forall i :: p <= i < scan ==> !NewLine(s[i])
      {
        scan := scan + 1;
      }
      LineTaken(s, p, scan);
      l := Take(l, s[p..scan], offset);
      p := scan;
    }
  }

  lemma StartOfFile(expected: int, offset: int)
    requires expected >= 0
    ensures OneDay(Load(expected, [], 0, 0), offset)
  {
  }
}
