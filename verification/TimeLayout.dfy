/** The fixed-width timestamp text of the store (internal/store/time.go) and why its byte order is time
    order.  Instants are signed nanoseconds since the Unix epoch, formatted in UTC in the proleptic
    Gregorian calendar. */
module TimeLayout {
  import opened Text
  import opened Domain

  // ------------------------------------------------------- fixed-width text

  function Pow10(n: nat): nat {
    if n == 0 then 1 else 10 * Pow10(n - 1)
  }

  /** A number in exactly w digits, zero padded. */
  function Pad(n: nat, w: nat): (s: string)
    ensures |s| == w
  {
    if w == 0 then "" else Pad(n / 10, w - 1) + [Digit(n % 10)]
  }

  lemma {:induction false} LessConcat(a: string, b: string, x: string, y: string)
    requires |a| == |b|
    ensures Less(a + x, b + y) <==> Less(a, b) || (a == b && Less(x, y))
  {
    if a == "" {
      assert a + x == x && b + y == y;
    } else {
      assert (a + x)[1..] == a[1..] + x && (b + y)[1..] == b[1..] + y;
      LessConcat(a[1..], b[1..], x, y);
      assert a == [a[0]] + a[1..] && b == [b[0]] + b[1..];
    }
  }

  lemma {:induction false} PadOrder(n: nat, m: nat, w: nat)
    requires n < Pow10(w) && m < Pow10(w)
    ensures Less(Pad(n, w), Pad(m, w)) <==> n < m
    ensures Pad(n, w) == Pad(m, w) <==> n == m
  {
    if w > 0 {
      PadOrder(n / 10, m / 10, w - 1);
      var a, b := Pad(n / 10, w - 1), Pad(m / 10, w - 1);
      LessConcat(a, b, [Digit(n % 10)], [Digit(m % 10)]);
      assert Pad(n, w)[..w - 1] == a && Pad(m, w)[..w - 1] == b;
      assert Pad(n, w)[w - 1] == Digit(n % 10) && Pad(m, w)[w - 1] == Digit(m % 10);
    }
  }

  /** A field of w digits, its separator, and the rest. */
  function Part(n: nat, w: nat, sep: char, rest: string): string {
    Pad(n, w) + ([sep] + rest)
  }

  lemma PartOrder(n: nat, m: nat, w: nat, sep: char, x: string, y: string)
    requires n < Pow10(w) && m < Pow10(w)
    ensures Less(Part(n, w, sep, x), Part(m, w, sep, y)) <==> n < m || (n == m && Less(x, y))
  {
    PadOrder(n, m, w);
    LessConcat(Pad(n, w), Pad(m, w), [sep] + x, [sep] + y);
    LessSamePrefix([sep], x, y);
  }

  // -------------------------------------------------------------- calendar

  predicate Leap(y: nat) {
    y % 4 == 0 && (y % 100 != 0 || y % 400 == 0)
  }

  function YearLength(y: nat): nat {
    if Leap(y) then 366 else 365
  }

  /** Days from 0000-01-01 to the first day of a year. */
  function YearStart(y: nat): nat {
    if y == 0 then 0 else YearStart(y - 1) + YearLength(y - 1)
  }

  function MonthLength(leap: bool, m: nat): nat
    requires 1 <= m <= 12
  {
    if m == 2 then (if leap then 29 else 28)
    else if m == 4 || m == 6 || m == 9 || m == 11 then 30
    else 31
  }

  /** Days of the year before a month. */
  function MonthStart(leap: bool, m: nat): nat
    requires 1 <= m <= 13
  {
    if m == 1 then 0 else MonthStart(leap, m - 1) + MonthLength(leap, m - 1)
  }

  lemma MonthsFillYear(y: nat)
    ensures MonthStart(Leap(y), 13) == YearLength(y)
  {
    var l := Leap(y);
    assert MonthStart(l, 3) == MonthStart(l, 1) + 31 + MonthLength(l, 2);
    assert MonthStart(l, 5) == MonthStart(l, 3) + 61;
    assert MonthStart(l, 7) == MonthStart(l, 5) + 61;
    assert MonthStart(l, 9) == MonthStart(l, 7) + 62;
    assert MonthStart(l, 11) == MonthStart(l, 9) + 61;
  }

  lemma {:induction false} YearStartGrows(a: nat, b: nat)
    requires a <= b
    ensures YearStart(a) + 365 * (b - a) <= YearStart(b)
  {
    if a < b { YearStartGrows(a, b - 1); }
  }

  lemma {:induction false} MonthStartGrows(leap: bool, a: nat, b: nat)
    requires 1 <= a <= b <= 13
    ensures MonthStart(leap, a) + 28 * (b - a) <= MonthStart(leap, b)
  {
    if a < b { MonthStartGrows(leap, a, b - 1); }
  }

  /** The year a day falls in, searching upwards. */
  function YearOf(day: nat, y: nat): (r: nat)
    requires YearStart(y) <= day
    ensures YearStart(r) <= day < YearStart(r + 1)
    decreases day - YearStart(y)
  {
    if day < YearStart(y + 1) then y else YearOf(day, y + 1)
  }

  function MonthOf(leap: bool, day: nat, m: nat): (r: nat)
    requires 1 <= m <= 12 && MonthStart(leap, m) <= day < MonthStart(leap, 13)
    ensures 1 <= r <= 12 && MonthStart(leap, r) <= day < MonthStart(leap, r + 1)
    decreases 12 - m
  {
    if day < MonthStart(leap, m + 1) then m else MonthOf(leap, day, m + 1)
  }

  datatype Date = Date(year: nat, month: nat, day: nat)

  /** The date a day number has in the calendar. */
  predicate IsDate(days: nat, d: Date) {
    && 1 <= d.month <= 12 && 1 <= d.day
    && days == YearStart(d.year) + MonthStart(Leap(d.year), d.month) + d.day - 1
    && d.day <= MonthLength(Leap(d.year), d.month)
  }

  function DateOf(days: nat): (d: Date)
    ensures IsDate(days, d)
  {
    var y := YearOf(days, 0);
    MonthsFillYear(y);
    var r := days - YearStart(y);
    var m := MonthOf(Leap(y), r, 1);
    Date(y, m, r - MonthStart(Leap(y), m) + 1)
  }

  predicate DateBefore(a: Date, b: Date) {
    a.year < b.year || (a.year == b.year && (a.month < b.month || (a.month == b.month && a.day < b.day)))
  }

  lemma DateWithinYear(days: nat, d: Date)
    requires IsDate(days, d)
    ensures YearStart(d.year) <= days < YearStart(d.year + 1)
  {
    MonthsFillYear(d.year);
    MonthStartGrows(Leap(d.year), d.month + 1, 13);
  }

  lemma LaterDayLaterDate(a: nat, d: Date, b: nat, e: Date)
    requires a < b && IsDate(a, d) && IsDate(b, e)
    ensures DateBefore(d, e)
  {
    DateWithinYear(a, d);
    DateWithinYear(b, e);
    if e.year < d.year { YearStartGrows(e.year + 1, d.year); }
    if d.year == e.year && e.month < d.month { MonthStartGrows(Leap(d.year), e.month + 1, d.month); }
  }

  lemma DateOrder(a: nat, b: nat)
    ensures DateBefore(DateOf(a), DateOf(b)) <==> a < b
    ensures DateOf(a) == DateOf(b) <==> a == b
  {
    if a < b { LaterDayLaterDate(a, DateOf(a), b, DateOf(b)); }
    if b < a { LaterDayLaterDate(b, DateOf(b), a, DateOf(a)); }
  }

  // ---------------------------------------------------------------- format

  const UNIX_EPOCH_DAYS: nat := 719_528

  lemma Fours(x: nat)
    ensures (x + 4) / 4 - (x + 3) / 4 == if x % 4 == 0 then 1 else 0
  {
  }

  lemma Centuries(x: nat)
    ensures (x + 100) / 100 - (x + 99) / 100 == if x % 100 == 0 then 1 else 0
    ensures x % 100 == 0 ==> x % 4 == 0
  {
    var q, r := x / 100, x % 100;
    assert x == 100 * q + r;
    assert r == 0 ==> x == 4 * (25 * q);
    assert r > 0 ==> x + 99 == 100 * (q + 1) + (r - 1);
  }

  lemma FourCenturies(x: nat)
    ensures (x + 400) / 400 - (x + 399) / 400 == if x % 400 == 0 then 1 else 0
    ensures x % 400 == 0 ==> x % 100 == 0
  {
    var q, r := x / 400, x % 400;
    assert x == 400 * q + r;
    assert r == 0 ==> x == 100 * (4 * q);
    assert r > 0 ==> x + 399 == 400 * (q + 1) + (r - 1);
  }

  /** The epoch constant is the calendar's own. */
  lemma {:induction false} YearStartIs(y: nat)
    ensures YearStart(y) == 365 * y + (y + 3) / 4 - (y + 99) / 100 + (y + 399) / 400
  {
    if y > 0 {
      YearStartIs(y - 1);
      Fours(y - 1);
      Centuries(y - 1);
      FourCenturies(y - 1);
    }
  }

  lemma UnixEpoch()
    ensures YearStart(1970) == UNIX_EPOCH_DAYS
  {
    YearStartIs(1970);
  }

  /** Whole seconds since 0000-01-01T00:00:00Z. */
  function Seconds(t: int): int {
    t / SECOND + UNIX_EPOCH_DAYS * 86400
  }

  /** Years 0000 to 9999. */
  predicate FourDigitYear(t: int) {
    0 <= Seconds(t) && Seconds(t) / 86400 < YearStart(10000)
  }

  /** The texts below the date: "15:04:05.000000000Z". */
  function TimeText(s: nat, ns: nat): string {
    Part(s / 60 / 60, 2, ':', Part(s / 60 % 60, 2, ':', Part(s % 60, 2, '.', Part(ns, 9, 'Z', ""))))
  }

  function DateText(d: Date, rest: string): string {
    Part(d.year, 4, '-', Part(d.month, 2, '-', Part(d.day, 2, 'T', rest)))
  }

  /** t.UTC().Format(timeLayout). */
  function Format(t: int): string
    requires FourDigitYear(t)
  {
    DateText(DateOf(Seconds(t) / 86400), TimeText(Seconds(t) % 86400, t % SECOND))
  }

  lemma TimeOrder(a: nat, x: nat, b: nat, y: nat)
    requires a < 86400 && b < 86400 && x < SECOND && y < SECOND
    ensures Less(TimeText(a, x), TimeText(b, y)) <==> a < b || (a == b && x < y)
  {
    PartOrder(x, y, 9, 'Z', "", "");
    var xs, ys := Part(x, 9, 'Z', ""), Part(y, 9, 'Z', "");
    PartOrder(a % 60, b % 60, 2, '.', xs, ys);
    var xm, ym := Part(a % 60, 2, '.', xs), Part(b % 60, 2, '.', ys);
    PartOrder(a / 60 % 60, b / 60 % 60, 2, ':', xm, ym);
    PartOrder(a / 60 / 60, b / 60 / 60, 2, ':', Part(a / 60 % 60, 2, ':', xm), Part(b / 60 % 60, 2, ':', ym));
  }

  predicate Printable(d: Date) {
    d.year < 10000 && d.month < 100 && d.day < 100
  }

  lemma DateTextOrder(d: Date, e: Date, x: string, y: string)
    requires Printable(d) && Printable(e)
    ensures Less(DateText(d, x), DateText(e, y)) <==> DateBefore(d, e) || (d == e && Less(x, y))
  {
    PartOrder(d.day, e.day, 2, 'T', x, y);
    var xd, yd := Part(d.day, 2, 'T', x), Part(e.day, 2, 'T', y);
    PartOrder(d.month, e.month, 2, '-', xd, yd);
    PartOrder(d.year, e.year, 4, '-', Part(d.month, 2, '-', xd), Part(e.month, 2, '-', yd));
  }

  lemma DatePrintable(t: int)
    requires FourDigitYear(t)
    ensures Printable(DateOf(Seconds(t) / 86400))
  {
    var days := Seconds(t) / 86400;
    var d := DateOf(days);
    DateWithinYear(days, d);
    if d.year >= 10000 { YearStartGrows(10000, d.year); }
  }

  /** For every two instants in four-digit years, byte order of the texts is time order, and equal
      texts mean equal instants. */
  lemma FormatOrder(t: int, u: int)
    requires FourDigitYear(t) && FourDigitYear(u)
    ensures Less(Format(t), Format(u)) <==> t < u
    ensures Format(t) == Format(u) <==> t == u
  {
    FormatLess(t, u);
    FormatLess(u, t);
    LessTotal(Format(t), Format(u));
  }

  lemma FormatLess(t: int, u: int)
    requires FourDigitYear(t) && FourDigitYear(u)
    ensures Less(Format(t), Format(u)) <==> t < u
  {
    var s, v := Seconds(t), Seconds(u);
    DatePrintable(t);
    DatePrintable(u);
    DateTextOrder(DateOf(s / 86400), DateOf(v / 86400), TimeText(s % 86400, t % SECOND),
                  TimeText(v % 86400, u % SECOND));
    TimeOrder(s % 86400, t % SECOND, v % 86400, u % SECOND);
    DateOrder(s / 86400, v / 86400);
  }

  lemma FirstOfYear(y: nat, days: nat)
    requires days == YearStart(y)
    ensures DateOf(days) == Date(y, 1, 1)
  {
    var d := DateOf(days);
    DateWithinYear(days, d);
    if d.year < y { YearStartGrows(d.year + 1, y); }
    if y < d.year { YearStartGrows(y + 1, d.year); }
    MonthStartGrows(Leap(y), 1, d.month);
  }

  /** The instant a year starts at. */
  function YearInstant(y: nat): int {
    (YearStart(y) - UNIX_EPOCH_DAYS) * 86400 * SECOND
  }

  /** Every year from 0000 to 9999 starts at midnight of its first of January; 1970 starts at instant 0
      (UnixEpoch). */
  lemma YearText(y: nat)
    requires y < 10000
    ensures FourDigitYear(YearInstant(y)) && Format(YearInstant(y)) == DateText(Date(y, 1, 1), TimeText(0, 0))
  {
    YearStartGrows(y, 10000);
    var t := YearInstant(y);
    assert t / SECOND == (YearStart(y) - UNIX_EPOCH_DAYS) * 86400 && t % SECOND == 0;
    FirstOfYear(y, Seconds(t) / 86400);
  }

  lemma {:induction false} PadValue(n: nat, w: nat)
    requires n < Pow10(w)
    ensures AllDigits(Pad(n, w)) && NumeralValue(Pad(n, w)) == n
  {
    if w > 0 {
      PadValue(n / 10, w - 1);
      assert Pad(n, w)[..w - 1] == Pad(n / 10, w - 1);
    }
  }

  /** A day of the calendar and a time of it. */
  predicate IsTime(t: int, d: Date, h: nat, m: nat, s: nat, ns: nat)
    requires FourDigitYear(t)
  {
    && IsDate(Seconds(t) / 86400, d) && h < 24 && m < 60 && s < 60 && ns < SECOND
    && Seconds(t) % 86400 == h * 3600 + m * 60 + s && ns == t % SECOND
  }

  predicate FieldsFit(d: Date, h: nat, m: nat, s: nat, ns: nat) {
    && d.year < Pow10(4) && d.month < Pow10(2) && d.day < Pow10(2) && h < Pow10(2) && m < Pow10(2) && s < Pow10(2)
    && ns < Pow10(9)
  }

  function TimeOfDay(h: nat, m: nat, s: nat, ns: nat): string {
    Pad(h, 2) + ":" + Pad(m, 2) + ":" + Pad(s, 2) + "." + Pad(ns, 9) + "Z"
  }

  lemma TimeFields(of: nat, ns: nat)
    ensures TimeText(of, ns) == TimeOfDay(of / 60 / 60, of / 60 % 60, of % 60, ns)
    ensures |TimeText(of, ns)| == 19
  {
    var last := Part(ns, 9, 'Z', "");
    assert last == Pad(ns, 9) + "Z";
    var seconds := Part(of % 60, 2, '.', last);
    assert seconds == Pad(of % 60, 2) + "." + Pad(ns, 9) + "Z";
    var minutes := Part(of / 60 % 60, 2, ':', seconds);
    assert minutes == Pad(of / 60 % 60, 2) + ":" + Pad(of % 60, 2) + "." + Pad(ns, 9) + "Z";
  }

  lemma DateFields(d: Date, rest: string)
    ensures DateText(d, rest) == Pad(d.year, 4) + "-" + Pad(d.month, 2) + "-" + Pad(d.day, 2) + "T" + rest
    ensures |DateText(d, rest)| == 11 + |rest|
  {
    var day := Part(d.day, 2, 'T', rest);
    assert day == Pad(d.day, 2) + "T" + rest;
    var month := Part(d.month, 2, '-', day);
    assert month == Pad(d.month, 2) + "-" + Pad(d.day, 2) + "T" + rest;
  }

  lemma ClockOf(of: nat)
    requires of < 86400
    ensures of / 60 / 60 < 24 && of / 60 % 60 < 60 && of % 60 < 60
    ensures of == of / 60 / 60 * 3600 + of / 60 % 60 * 60 + of % 60
  {
  }

  lemma Widths()
    ensures Pow10(2) == 100 && Pow10(4) == 10000 && Pow10(9) == SECOND
  {
  }

  /** The text is the instant's date and time in full, "2006-01-02T15:04:05.000000000Z": every field in
      its fixed width, and none cut short (PadValue reads each one back). */
  lemma FormatFields(t: int) returns (d: Date, h: nat, m: nat, s: nat, ns: nat)
    requires FourDigitYear(t)
    ensures IsTime(t, d, h, m, s, ns) && FieldsFit(d, h, m, s, ns) && |Format(t)| == 30
    ensures Format(t) == Pad(d.year, 4) + "-" + Pad(d.month, 2) + "-" + Pad(d.day, 2) + "T" + TimeOfDay(h, m, s, ns)
  {
    var of := Seconds(t) % 86400;
    d, h, m, s, ns := DateOf(Seconds(t) / 86400), of / 60 / 60, of / 60 % 60, of % 60, t % SECOND;
    DatePrintable(t);
    ClockOf(of);
    TimeFields(of, ns);
    DateFields(d, TimeText(of, ns));
    Widths();
  }
}
