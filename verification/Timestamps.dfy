/** `format_unix_as_iso8601` of src/auth/commands.rs: seconds since the epoch as "yyyy-mm-ddThh:mm:ssZ". */
module Timestamps {
  import opened Calendar
  import opened TempNames
  import opened TextOrder

  datatype Fields = Fields(date: Date, hour: nat, minute: nat, second: nat)

  /** The field ranges of section 5.7 of RFC 3339 (without leap seconds). */
  predicate InRange(f: Fields) { ValidDate(f.date) && f.hour < 24 && f.minute < 60 && f.second < 60 }

  function Recombine(f: Fields): int
    requires InRange(f)
  {
    86400 * DayCount(f.date) + 3600 * f.hour + 60 * f.minute + f.second
  }

  ghost function FieldsOf(secs: nat): (f: Fields)
    ensures InRange(f) && Recombine(f) == secs
  {
    var time := secs % 86400;
    ClockAddsUp(time);
    Fields(DateOf(secs / 86400), time / 3600, (time % 3600) / 60, time % 60)
  }

  lemma {:induction false} ClockAddsUp(time: nat)
    ensures time == 3600 * (time / 3600) + 60 * ((time % 3600) / 60) + time % 60
  {
    var h, rest := time / 3600, time % 3600;
    Mod60(60 * h + rest / 60, rest % 60);
  }

  lemma {:induction false} Mod60(minutes: nat, s: nat)
    requires s < 60
    ensures (60 * minutes + s) % 60 == s
  {
  }

  predicate Earlier(a: Fields, b: Fields) {
    Before(a.date, b.date) || (a.date == b.date && TimeLess(a, b))
  }

  predicate TimeLess(a: Fields, b: Fields) {
    a.hour < b.hour || (a.hour == b.hour && (a.minute < b.minute || (a.minute == b.minute && a.second < b.second)))
  }

  /** Splitting and recombining are inverse, and the fields compare as the instants do. */
  lemma {:induction false} FieldsOrderInstants(a: Fields, b: Fields)
    requires InRange(a) && InRange(b)
    ensures Recombine(a) >= 0 && FieldsOf(Recombine(a)) == a
    ensures Earlier(a, b) <==> Recombine(a) < Recombine(b)
  {
    EarlierMeans(a, b);
    DatesAndCountsAgree(a.date, 0, 0);
    var f := FieldsOf(Recombine(a));
    EarlierMeans(a, f);
    EarlierMeans(f, a);
  }

  lemma {:induction false} EarlierMeans(a: Fields, b: Fields)
    requires InRange(a) && InRange(b)
    ensures Earlier(a, b) <==> Recombine(a) < Recombine(b)
    ensures a == b || Earlier(a, b) || Earlier(b, a)
  {
    CountOrdersDates(a.date, b.date);
    CountOrdersDates(b.date, a.date);
  }

  // --------------------------------------------------------------------- text

  function Zeros(n: nat): string { seq(n, _ => '0') }

  /** `{n:0width}`: never truncates. */
  function Pad(n: nat, width: nat): string {
    var s := Decimal(n);
    if |s| < width then Zeros(width - |s|) + s else s
  }

  function Clock(f: Fields): string {
    Pad(f.hour, 2) + ":" + (Pad(f.minute, 2) + ":" + (Pad(f.second, 2) + "Z"))
  }

  function AfterYear(f: Fields): string {
    Pad(f.date.month, 2) + "-" + (Pad(f.date.day, 2) + "T" + Clock(f))
  }

  function Render(f: Fields): string { Pad(f.date.year, 4) + "-" + AfterYear(f) }

  ghost function Iso(secs: nat): string { Render(FieldsOf(secs)) }

  method FormatUnixAsIso8601(secs: nat) returns (s: string)
    ensures s == Iso(secs)
  {
    var days, time := secs / 86400, secs % 86400;
    var date := DaysToYmd(days);
    s := Render(Fields(date, time / 3600, (time % 3600) / 60, time % 60));
  }

  lemma {:induction false} PadTwo(n: nat)
    requires n < 100
    ensures Pad(n, 2) == [Digit(n / 10), Digit(n % 10)]
  {
    if n >= 10 { assert Decimal(n) == Decimal(n / 10) + [Digit(n % 10)]; }
  }

  lemma {:induction false} DigitOrder(m: nat, n: nat)
    requires m < 10 && n < 10
    ensures Digit(m) < Digit(n) <==> m < n
    ensures Digit(m) == Digit(n) <==> m == n
  {
  }

  // ------------------------------------------------------------- order of strings

  /** One two-digit field, its separator, and what follows. */
  lemma {:induction false} FieldOrder(m: nat, n: nat, c: char, x: string, y: string)
    requires m < 100 && n < 100
    ensures StrLess(Pad(m, 2) + [c] + x, Pad(n, 2) + [c] + y) <==> m < n || (m == n && StrLess(x, y))
  {
    PadTwo(m);
    PadTwo(n);
    var p, q := [Digit(m / 10), Digit(m % 10)], [Digit(n / 10), Digit(n % 10)];
    assert Pad(m, 2) + [c] + x == p + ([c] + x) && Pad(n, 2) + [c] + y == q + ([c] + y);
    StrLessConcat(p, q, [c] + x, [c] + y);
    StrLessConcat([c], [c], x, y);
    DigitOrder(m / 10, n / 10);
    DigitOrder(m % 10, n % 10);
    assert p[1..] == [Digit(m % 10)] && q[1..] == [Digit(n % 10)];
    assert p == q <==> p[0] == q[0] && p[1] == q[1];
  }

  /** Numbers with equally many digits compare as their digits do. */
  lemma {:induction false} DecimalOrder(m: nat, n: nat)
    requires |Decimal(m)| == |Decimal(n)|
    ensures StrLess(Decimal(m), Decimal(n)) <==> m < n
  {
    DigitOrder(m % 10, n % 10);
    if m >= 10 && n >= 10 {
      DecimalOrder(m / 10, n / 10);
      StrLessConcat(Decimal(m / 10), Decimal(n / 10), [Digit(m % 10)], [Digit(n % 10)]);
      if Decimal(m / 10) == Decimal(n / 10) {
        DecimalRoundTrip(m / 10);
        DecimalRoundTrip(n / 10);
      }
    }
  }

  lemma {:induction false} YearDigits(y: nat)
    requires 1000 <= y
    ensures |Decimal(y)| >= 4
    ensures y < 10000 ==> |Decimal(y)| == 4
  {
    assert |Decimal(y)| == |Decimal(y / 10)| + 1;
    assert |Decimal(y / 10)| == |Decimal(y / 10 / 10)| + 1;
    assert |Decimal(y / 10 / 10)| == |Decimal(y / 10 / 10 / 10)| + 1;
  }

  lemma {:induction false} ClockOrder(a: Fields, b: Fields)
    requires InRange(a) && InRange(b)
    ensures StrLess(Clock(a), Clock(b)) <==> TimeLess(a, b)
  {
    assert Pad(a.second, 2) + "Z" == Pad(a.second, 2) + ['Z'] + "";
    assert Pad(b.second, 2) + "Z" == Pad(b.second, 2) + ['Z'] + "";
    FieldOrder(a.second, b.second, 'Z', "", "");
    FieldOrder(a.minute, b.minute, ':', Pad(a.second, 2) + "Z", Pad(b.second, 2) + "Z");
    FieldOrder(a.hour, b.hour, ':', Pad(a.minute, 2) + ":" + (Pad(a.second, 2) + "Z"), Pad(b.minute, 2) + ":" + (Pad(b.second, 2) + "Z"));
  }

  lemma {:induction false} AfterYearOrder(a: Fields, b: Fields)
    requires InRange(a) && InRange(b)
    ensures StrLess(AfterYear(a), AfterYear(b)) <==>
            a.date.month < b.date.month || (a.date.month == b.date.month
              && (a.date.day < b.date.day || (a.date.day == b.date.day && TimeLess(a, b))))
  {
    ClockOrder(a, b);
    FieldOrder(a.date.day, b.date.day, 'T', Clock(a), Clock(b));
    FieldOrder(a.date.month, b.date.month, '-', Pad(a.date.day, 2) + "T" + Clock(a), Pad(b.date.day, 2) + "T" + Clock(b));
  }

  lemma {:induction false} RenderOrder(a: Fields, b: Fields)
    requires InRange(a) && InRange(b) && |Decimal(a.date.year)| == |Decimal(b.date.year)|
    ensures StrLess(Render(a), Render(b)) <==> Earlier(a, b)
  {
    var y, z := a.date.year, b.date.year;
    YearDigits(y);
    YearDigits(z);
    AfterYearOrder(a, b);
    DecimalOrder(y, z);
    assert Render(a) == Decimal(y) + ("-" + AfterYear(a)) && Render(b) == Decimal(z) + ("-" + AfterYear(b));
    StrLessConcat(Decimal(y), Decimal(z), "-" + AfterYear(a), "-" + AfterYear(b));
    StrLessConcat("-", "-", AfterYear(a), AfterYear(b));
    DecimalRoundTrip(y);
    DecimalRoundTrip(z);
  }

  /** The first second of the year 10000. */
  const YEAR_10000 := 253402300800

  ghost predicate SortsByTime(limit: nat) {
    forall s, t :: 0 <= s < t < limit ==> StrLess(Iso(s), Iso(t))
  }

  lemma {:induction false} LastOfFourDigits()
    ensures FieldsOf(YEAR_10000) == Fields(Date(10000, 1, 1), 0, 0, 0)
    ensures FieldsOf(YEAR_10000 - 1) == Fields(Date(9999, 12, 31), 23, 59, 59)
  {
    CountsAround10000();
    hide DayCount, FieldsOf, Earlier;
    var a, b := Fields(Date(9999, 12, 31), 23, 59, 59), Fields(Date(10000, 1, 1), 0, 0, 0);
    assert Recombine(a) == YEAR_10000 - 1 && Recombine(b) == YEAR_10000;
    FieldsOrderInstants(a, b);
    FieldsOrderInstants(b, a);
  }

  lemma {:induction false} CountsAround10000()
    ensures ValidDate(Date(10000, 1, 1)) && DayCount(Date(10000, 1, 1)) == 2932897
    ensures ValidDate(Date(9999, 12, 31)) && DayCount(Date(9999, 12, 31)) == 2932896
  {
  }

  /** Sorting the texts sorts the instants up to the year 10000, and no further. */
  lemma {:induction false} TextSortsByTimeIff(limit: nat)
    ensures SortsByTime(limit) <==> limit <= YEAR_10000
  {
    LastOfFourDigits();
    if limit <= YEAR_10000 {
      forall s, t | 0 <= s < t < limit ensures StrLess(Iso(s), Iso(t)) {
        BelowYear10000(s);
        BelowYear10000(t);
        FieldsOrderInstants(FieldsOf(s), FieldsOf(t));
        RenderOrder(FieldsOf(s), FieldsOf(t));
      }
    } else {
      YearTenThousandSortsFirst();
    }
  }

  lemma {:induction false} BelowYear10000(s: nat)
    requires s < YEAR_10000
    ensures |Decimal(FieldsOf(s).date.year)| == 4
  {
    LastOfFourDigits();
    FieldsOrderInstants(FieldsOf(s), FieldsOf(YEAR_10000));
    YearDigits(FieldsOf(s).date.year);
  }

  lemma {:induction false} YearTenThousandSortsFirst()
    ensures !StrLess(Iso(YEAR_10000 - 1), Iso(YEAR_10000))
  {
    LastOfFourDigits();
    var a, b := FieldsOf(YEAR_10000 - 1), FieldsOf(YEAR_10000);
    YearDigits(10000);
    YearDigits(9999);
    assert Decimal(9999)[0] == '9' by {
      assert Decimal(9999) == Decimal(999) + ['9'] && Decimal(999) == Decimal(99) + ['9'] && Decimal(99) == Decimal(9) + ['9'];
    }
    assert Decimal(10000)[0] == '1' by {
      assert Decimal(10000) == Decimal(1000) + ['0'] && Decimal(1000) == Decimal(100) + ['0'] && Decimal(100) == Decimal(10) + ['0'];
      assert Decimal(10) == Decimal(1) + ['0'];
    }
    assert Render(a)[0] == '9' && Render(b)[0] == '1';
  }

  /** Without any bound, different instants still have different texts. */
  lemma {:induction false} TextIsInjective(s: nat, t: nat)
    requires Iso(s) == Iso(t)
    ensures s == t
  {
    var a, b := FieldsOf(s), FieldsOf(t);
    AfterYearWidth(a);
    AfterYearWidth(b);
    YearDigits(a.date.year);
    YearDigits(b.date.year);
    RenderOrder(a, b);
    RenderOrder(b, a);
    NotLessThanItself(Iso(s));
    EarlierMeans(a, b);
  }

  lemma {:induction false} AfterYearWidth(f: Fields)
    requires InRange(f)
    ensures |AfterYear(f)| == 15
  {
    PadTwo(f.date.month);
    PadTwo(f.date.day);
    PadTwo(f.hour);
    PadTwo(f.minute);
    PadTwo(f.second);
  }

  lemma {:induction false} TwoDigits(n: nat)
    requires n < 100
    ensures DecimalValue(Pad(n, 2)) == n && |Pad(n, 2)| == 2
  {
    PadTwo(n);
    var a, b := Digit(n / 10), Digit(n % 10);
    assert [a, b][..1] == [a] && [a][..0] == [];
    assert DecimalValue([a]) == n / 10;
  }

  /** Before the year 10000: the punctuation of section 5.6 of RFC 3339, and between it the digits of the fields. */
  lemma {:induction false} TextReadsBack(secs: nat)
    requires secs < YEAR_10000
    ensures var s, f := Iso(secs), FieldsOf(secs);
            && |s| == 20 && s[4] == '-' && s[7] == '-' && s[10] == 'T' && s[13] == ':' && s[16] == ':' && s[19] == 'Z'
            && DecimalValue(s[..4]) == f.date.year && DecimalValue(s[5..7]) == f.date.month && DecimalValue(s[8..10]) == f.date.day
            && DecimalValue(s[11..13]) == f.hour && DecimalValue(s[14..16]) == f.minute && DecimalValue(s[17..19]) == f.second
  {
    var s, f := Iso(secs), FieldsOf(secs);
    BelowYear10000(secs);
    hide FieldsOf, DecimalValue, Decimal, Digit;
    DecimalRoundTrip(f.date.year);
    TwoDigits(f.date.month);
    TwoDigits(f.date.day);
    TwoDigits(f.hour);
    TwoDigits(f.minute);
    TwoDigits(f.second);
    hide Pad;
    PadsNothing(f.date.year);
    TextPieces(f);
  }

  lemma {:induction false} PadsNothing(year: nat)
    requires |Decimal(year)| == 4
    ensures Pad(year, 4) == Decimal(year)
  {
  }

  lemma {:induction false} TextPieces(f: Fields)
    requires |Pad(f.date.year, 4)| == 4 && |Pad(f.date.month, 2)| == 2 && |Pad(f.date.day, 2)| == 2
    requires |Pad(f.hour, 2)| == 2 && |Pad(f.minute, 2)| == 2 && |Pad(f.second, 2)| == 2
    ensures var s := Render(f);
            && |s| == 20 && s[4] == '-' && s[7] == '-' && s[10] == 'T' && s[13] == ':' && s[16] == ':' && s[19] == 'Z'
            && s[..4] == Pad(f.date.year, 4) && s[5..7] == Pad(f.date.month, 2) && s[8..10] == Pad(f.date.day, 2)
            && s[11..13] == Pad(f.hour, 2) && s[14..16] == Pad(f.minute, 2) && s[17..19] == Pad(f.second, 2)
  {
    hide Pad;
  }
}
