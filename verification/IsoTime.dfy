/**
 * UTC instants as `datetime.isoformat()` writes them. The lease protocol stores these strings and
 * compares them as strings; this module relates that comparison to the order of time.
 */
module IsoTime {
  import opened Text

  predicate IsLeap(y: nat) {
    y % 4 == 0 && (y % 100 != 0 || y % 400 == 0)
  }

  function DaysInYear(y: nat): nat {
    if IsLeap(y) then 366 else 365
  }

  function DaysInMonth(y: nat, m: nat): nat {
    if m == 2 then (if IsLeap(y) then 29 else 28)
    else if m == 4 || m == 6 || m == 9 || m == 11 then 30
    else 31
  }

  datatype DateTime = DateTime(year: nat, month: nat, day: nat, hour: nat, minute: nat, second: nat, micro: nat) {
    /** What `datetime` accepts: a proleptic Gregorian date with a four-digit year at most. */
    predicate Valid() {
      && 1 <= year <= 9999
      && 1 <= month <= 12
      && 1 <= day <= DaysInMonth(year, month)
      && hour < 24 && minute < 60 && second < 60 && micro < 1_000_000
    }
  }

  type Instant = d: DateTime | d.Valid() witness DateTime(1, 1, 1, 0, 0, 0, 0)

  // Position on the time line.

  function DaysBeforeYear(y: nat): nat {
    if y <= 1 then 0 else DaysBeforeYear(y - 1) + DaysInYear(y - 1)
  }

  function DaysBeforeMonth(y: nat, m: nat): nat {
    if m <= 1 then 0 else DaysBeforeMonth(y, m - 1) + DaysInMonth(y, m - 1)
  }

  function Ordinal(d: Instant): nat {
    DaysBeforeYear(d.year) + DaysBeforeMonth(d.year, d.month) + d.day
  }

  /** Microseconds since a fixed origin. */
  function Micros(d: Instant): nat {
    (((Ordinal(d) * 24 + d.hour) * 60 + d.minute) * 60 + d.second) * 1_000_000 + d.micro
  }

  lemma {:induction false} YearsAddUp(a: nat, b: nat)
    requires 1 <= a < b
    ensures DaysBeforeYear(a) + DaysInYear(a) <= DaysBeforeYear(b)
    decreases b
  {
    if a + 1 < b {
      YearsAddUp(a, b - 1);
    }
  }

  lemma {:induction false} MonthsAddUp(y: nat, a: nat, b: nat)
    requires 1 <= a < b
    ensures DaysBeforeMonth(y, a) + DaysInMonth(y, a) <= DaysBeforeMonth(y, b)
    decreases b
  {
    if a + 1 < b {
      MonthsAddUp(y, a, b - 1);
    }
  }

  lemma MonthsFitYear(y: nat)
    ensures DaysBeforeMonth(y, 12) + DaysInMonth(y, 12) == DaysInYear(y)
  {
    assert DaysBeforeMonth(y, 2) == 31;
    assert DaysBeforeMonth(y, 4) == DaysBeforeMonth(y, 2) + DaysInMonth(y, 2) + 31;
    assert DaysBeforeMonth(y, 6) == DaysBeforeMonth(y, 4) + 61;
    assert DaysBeforeMonth(y, 8) == DaysBeforeMonth(y, 6) + 61;
    assert DaysBeforeMonth(y, 10) == DaysBeforeMonth(y, 8) + 61;
    assert DaysBeforeMonth(y, 12) == DaysBeforeMonth(y, 10) + 61;
  }

  lemma DayFitsYear(d: Instant)
    ensures DaysBeforeMonth(d.year, d.month) + d.day <= DaysInYear(d.year)
  {
    MonthsFitYear(d.year);
    if d.month < 12 {
      MonthsAddUp(d.year, d.month, 12);
    }
  }

  predicate DateBefore(a: Instant, b: Instant) {
    a.year < b.year || (a.year == b.year && (a.month < b.month || (a.month == b.month && a.day < b.day)))
  }

  predicate ClockBefore(a: Instant, b: Instant) {
    || a.hour < b.hour
    || (a.hour == b.hour && a.minute < b.minute)
    || (a.hour == b.hour && a.minute == b.minute && a.second < b.second)
    || (a.hour == b.hour && a.minute == b.minute && a.second == b.second && a.micro < b.micro)
  }

  predicate SameDate(a: Instant, b: Instant) {
    a.year == b.year && a.month == b.month && a.day == b.day
  }

  /** Field by field, most significant first: the order Python gives two UTC datetimes. */
  predicate Before(a: Instant, b: Instant) {
    DateBefore(a, b) || (SameDate(a, b) && ClockBefore(a, b))
  }

  lemma OrdinalOrder(a: Instant, b: Instant)
    requires DateBefore(a, b)
    ensures Ordinal(a) < Ordinal(b)
  {
    if a.year < b.year {
      YearsAddUp(a.year, b.year);
      DayFitsYear(a);
    } else if a.month < b.month {
      MonthsAddUp(a.year, a.month, b.month);
    }
  }

  lemma MicrosOrder(a: Instant, b: Instant)
    requires Before(a, b)
    ensures Micros(a) < Micros(b)
  {
    if DateBefore(a, b) {
      OrdinalOrder(a, b);
    }
  }

  // The text form.

  function Digit(n: nat): char
    requires n < 10
  {
    '0' + n as char
  }

  /** The low `k` decimal digits of `n`, zero padded. */
  function Digits(n: nat, k: nat): string {
    if k == 0 then "" else Digits(n / 10, k - 1) + [Digit(n % 10)]
  }

  const ZONE := "+00:00"

  function FractionText(d: Instant): string {
    if d.micro == 0 then ZONE else "." + (Digits(d.micro, 6) + ZONE)
  }

  function ClockText(d: Instant): string {
    Digits(d.hour, 2) + (":" + (Digits(d.minute, 2) + (":" + (Digits(d.second, 2) + FractionText(d)))))
  }

  /** `datetime.isoformat()` of a UTC datetime; the fraction is left out when it is zero. */
  function Iso(d: Instant): string {
    Digits(d.year, 4) + ("-" + (Digits(d.month, 2) + ("-" + (Digits(d.day, 2) + ("T" + ClockText(d))))))
  }

  function Pow10(k: nat): nat {
    if k == 0 then 1 else 10 * Pow10(k - 1)
  }

  /** `k` digits that read as `n`. */
  lemma {:induction false} DigitsRead(n: nat, k: nat)
    requires n < Pow10(k)
    ensures |Digits(n, k)| == k && ReadDecimal(Digits(n, k)) == n
    ensures forall i :: 0 <= i < k ==> '0' <= Digits(n, k)[i] <= '9'
  {
    if k > 0 {
      DigitsRead(n / 10, k - 1);
      assert Digits(n, k)[..k - 1] == Digits(n / 10, k - 1);
    }
  }

  /** From position `at` of `text`: `k` digits that read as `n`. */
  predicate ReadsAt(text: string, at: nat, k: nat, n: nat) {
    && at + k <= |text| && ReadDecimal(text[at..at + k]) == n
    && forall i :: at <= i < at + k ==> '0' <= text[i] <= '9'
  }

  lemma Behind(text: string, before: nat, at: nat, k: nat, n: nat)
    requires before <= |text| && ReadsAt(text[before..], at, k, n)
    ensures ReadsAt(text, before + at, k, n)
  {
    var rest := text[before..];
    assert text[before + at..before + at + k] == rest[at..at + k];
    forall i | before + at <= i < before + at + k ensures '0' <= text[i] <= '9' {
      assert text[i] == rest[i - before];
    }
  }

  lemma FieldReads(n: nat, k: nat, sep: string, rest: string)
    requires n < Pow10(k)
    ensures var text := Digits(n, k) + (sep + rest);
      && |text| == k + |sep| + |rest|
      && ReadsAt(text, 0, k, n) && text[k..k + |sep|] == sep && text[k + |sep|..] == rest
  {
    DigitsRead(n, k);
    var text := Digits(n, k) + (sep + rest);
    assert text[..k] == Digits(n, k);
    forall i | 0 <= i < k ensures '0' <= text[i] <= '9' {
      assert text[i] == Digits(n, k)[i];
    }
  }

  /** Seconds in two digits, then the fraction in six if there is one, then the UTC offset. */
  predicate SecondsAt(text: string, at: nat, d: Instant) {
    && |text| == at + (if d.micro == 0 then 8 else 15)
    && ReadsAt(text, at, 2, d.second)
    && (d.micro != 0 ==> text[at + 2] == '.' && ReadsAt(text, at + 3, 6, d.micro))
    && text[|text| - 6..] == "+00:00"
  }

  lemma SecondsRead(d: Instant)
    ensures SecondsAt(Digits(d.second, 2) + FractionText(d), 0, d)
  {
    assert Pow10(2) == 100;
    assert Pow10(6) == 1_000_000 by { assert Pow10(3) == 1000; }
    var t := Digits(d.second, 2) + FractionText(d);
    if d.micro == 0 {
      FieldReads(d.second, 2, ZONE, "");
      assert ZONE + "" == ZONE;
    } else {
      var f := Digits(d.micro, 6) + ZONE;
      FieldReads(d.second, 2, ".", f);
      FieldReads(d.micro, 6, ZONE, "");
      assert ZONE + "" == ZONE;
      Behind(t, 3, 0, 6, d.micro);
      assert t[|t| - 6..] == f[6..];
    }
  }

  lemma SecondsBehind(text: string, before: nat, at: nat, d: Instant)
    requires before <= |text| && SecondsAt(text[before..], at, d)
    ensures SecondsAt(text, before + at, d)
  {
    var rest := text[before..];
    Behind(text, before, at, 2, d.second);
    if d.micro != 0 {
      Behind(text, before, at + 3, 6, d.micro);
      assert text[before + at + 2] == rest[at + 2];
    }
    assert text[|text| - 6..] == rest[|rest| - 6..];
  }

  lemma ClockReads(d: Instant)
    ensures var t := ClockText(d);
      && |t| >= 6 && ReadsAt(t, 0, 2, d.hour) && t[2] == ':' && ReadsAt(t, 3, 2, d.minute) && t[5] == ':'
      && SecondsAt(t, 6, d)
  {
    assert Pow10(2) == 100;
    var seconds := Digits(d.second, 2) + FractionText(d);
    var minutes := Digits(d.minute, 2) + (":" + seconds);
    var t := ClockText(d);
    SecondsRead(d);
    FieldReads(d.minute, 2, ":", seconds);
    FieldReads(d.hour, 2, ":", minutes);
    Behind(t, 3, 0, 2, d.minute);
    SecondsBehind(minutes, 3, 0, d);
    SecondsBehind(t, 3, 3, d);
    assert t[5] == t[3..][2] && minutes[2] == minutes[2..3][0] && t[2] == t[2..3][0];
  }

  lemma MonthReads(d: Instant, clock: string)
    ensures var t := Digits(d.month, 2) + ("-" + (Digits(d.day, 2) + ("T" + clock)));
      && |t| >= 6 && ReadsAt(t, 0, 2, d.month) && t[2] == '-' && ReadsAt(t, 3, 2, d.day) && t[5] == 'T'
      && t[6..] == clock
  {
    assert Pow10(2) == 100;
    var days := Digits(d.day, 2) + ("T" + clock);
    var t := Digits(d.month, 2) + ("-" + days);
    FieldReads(d.day, 2, "T", clock);
    FieldReads(d.month, 2, "-", days);
    Behind(t, 3, 0, 2, d.day);
    assert t[6..] == t[3..][3..];
    assert t[2] == t[2..3][0] && t[5] == days[2] == days[2..3][0];
  }

  lemma DateReads(d: Instant)
    ensures var t := Iso(d);
      && |t| >= 11
      && ReadsAt(t, 0, 4, d.year) && t[4] == '-' && ReadsAt(t, 5, 2, d.month) && t[7] == '-'
      && ReadsAt(t, 8, 2, d.day) && t[10] == 'T' && t[11..] == ClockText(d)
  {
    assert Pow10(4) == 10_000 by { assert Pow10(3) == 1000; }
    var clock := ClockText(d);
    var months := Digits(d.month, 2) + ("-" + (Digits(d.day, 2) + ("T" + clock)));
    MonthReads(d, clock);
    FieldReads(d.year, 4, "-", months);
    BehindDate(Digits(d.year, 4) + ("-" + months), months, d);
  }

  lemma BehindDate(t: string, months: string, d: Instant)
    requires |t| >= 5 && t[5..] == months && |months| >= 6
    requires ReadsAt(months, 0, 2, d.month) && ReadsAt(months, 3, 2, d.day) && t[4..5] == "-"
    ensures ReadsAt(t, 5, 2, d.month) && ReadsAt(t, 8, 2, d.day) && t[11..] == months[6..]
    ensures t[4] == '-' && t[7] == months[2] && t[10] == months[5]
  {
    Behind(t, 5, 0, 2, d.month);
    Behind(t, 5, 3, 2, d.day);
    assert t[4] == t[4..5][0];
  }

  /** The text is the date and the time of day in the fixed ISO 8601 layout, from which every field reads back; a
      fraction is there exactly if it is not zero. */
  lemma IsoReads(d: Instant)
    ensures var t := Iso(d);
      && |t| == (if d.micro == 0 then 25 else 32)
      && ReadsAt(t, 0, 4, d.year) && t[4] == '-' && ReadsAt(t, 5, 2, d.month) && t[7] == '-'
      && ReadsAt(t, 8, 2, d.day) && t[10] == 'T'
      && ReadsAt(t, 11, 2, d.hour) && t[13] == ':' && ReadsAt(t, 14, 2, d.minute) && t[16] == ':'
      && ReadsAt(t, 17, 2, d.second)
      && (d.micro != 0 ==> t[19] == '.' && ReadsAt(t, 20, 6, d.micro))
      && t[|t| - 6..] == "+00:00"
  {
    DateReads(d);
    ClockReads(d);
    var t := Iso(d);
    Behind(t, 11, 0, 2, d.hour);
    Behind(t, 11, 3, 2, d.minute);
    SecondsBehind(t, 11, 6, d);
    assert t[13] == t[11..][2] && t[16] == t[11..][5];
  }

  /** Code-point order of strings, Python's `<` on `str`. */
  predicate Less(a: string, b: string) {
    if b == "" then false
    else if a == "" then true
    else a[0] < b[0] || (a[0] == b[0] && Less(a[1..], b[1..]))
  }

  lemma {:induction false} LessIsStrict(a: string, b: string)
    ensures !(Less(a, b) && Less(b, a))
    ensures !Less(a, a)
  {
    if a != "" {
      if b != "" {
        LessIsStrict(a[1..], b[1..]);
      } else {
        LessIsStrict(a[1..], "");
      }
    }
  }

  lemma {:induction false} LessAfterPrefix(p: string, x: string, y: string)
    ensures Less(p + x, p + y) == Less(x, y)
  {
    if p == "" {
      assert p + x == x && p + y == y;
    } else {
      assert (p + x)[1..] == p[1..] + x && (p + y)[1..] == p[1..] + y;
      LessAfterPrefix(p[1..], x, y);
    }
  }

  /** Zero-padded numbers of one width order as strings the way they order as numbers. */
  lemma {:induction false} DigitsOrder(n: nat, m: nat, k: nat, x: string, y: string)
    requires n < m < Pow10(k)
    ensures Less(Digits(n, k) + x, Digits(m, k) + y)
  {
    var n', m' := n / 10, m / 10;
    var x', y' := [Digit(n % 10)] + x, [Digit(m % 10)] + y;
    assert Digits(n, k) + x == Digits(n', k - 1) + x';
    assert Digits(m, k) + y == Digits(m', k - 1) + y';
    if n' < m' {
      DigitsOrder(n', m', k - 1, x', y');
    } else {
      LessAfterPrefix(Digits(n', k - 1), x', y');
    }
  }

  lemma FieldOrder(n: nat, m: nat, k: nat, sep: string, x: string, y: string)
    requires n < Pow10(k) && m < Pow10(k)
    requires n < m || (n == m && Less(x, y))
    ensures Less(Digits(n, k) + (sep + x), Digits(m, k) + (sep + y))
  {
    if n < m {
      DigitsOrder(n, m, k, sep + x, sep + y);
    } else {
      LessAfterPrefix(sep, x, y);
      LessAfterPrefix(Digits(n, k), sep + x, sep + y);
    }
  }

  /** '+' sorts before '.', so a whole second sorts before every later fraction of it. */
  lemma FractionOrder(a: Instant, b: Instant)
    requires a.micro < b.micro
    ensures Less(FractionText(a), FractionText(b))
  {
    if a.micro != 0 {
      assert Pow10(6) == 1_000_000 by { assert Pow10(3) == 1000; }
      DigitsOrder(a.micro, b.micro, 6, ZONE, ZONE);
      LessAfterPrefix(".", Digits(a.micro, 6) + ZONE, Digits(b.micro, 6) + ZONE);
    }
  }

  lemma ClockOrder(a: Instant, b: Instant)
    requires ClockBefore(a, b)
    ensures Less(ClockText(a), ClockText(b))
  {
    assert Pow10(2) == 100;
    var fa, fb := FractionText(a), FractionText(b);
    var sa, sb := Digits(a.second, 2) + fa, Digits(b.second, 2) + fb;
    var ma, mb := Digits(a.minute, 2) + (":" + sa), Digits(b.minute, 2) + (":" + sb);
    if a.hour == b.hour {
      if a.minute == b.minute {
        if a.second == b.second {
          FractionOrder(a, b);
        }
        assert "" + fa == fa && "" + fb == fb;
        FieldOrder(a.second, b.second, 2, "", fa, fb);
      }
      FieldOrder(a.minute, b.minute, 2, ":", sa, sb);
    }
    FieldOrder(a.hour, b.hour, 2, ":", ma, mb);
  }

  lemma TextOrder(a: Instant, b: Instant)
    requires Before(a, b)
    ensures Less(Iso(a), Iso(b))
  {
    assert Pow10(2) == 100;
    assert Pow10(4) == 10_000 by { assert Pow10(3) == 1000; }
    var da, db := Digits(a.day, 2) + ("T" + ClockText(a)), Digits(b.day, 2) + ("T" + ClockText(b));
    var ma, mb := Digits(a.month, 2) + ("-" + da), Digits(b.month, 2) + ("-" + db);
    if a.year == b.year {
      if a.month == b.month {
        if a.day == b.day {
          ClockOrder(a, b);
        }
        FieldOrder(a.day, b.day, 2, "T", ClockText(a), ClockText(b));
      }
      FieldOrder(a.month, b.month, 2, "-", da, db);
    }
    FieldOrder(a.year, b.year, 4, "-", ma, mb);
  }

  /** Comparing the stored strings is comparing the instants, for every pair of instants. */
  lemma IsoOrderIsTimeOrder(a: Instant, b: Instant)
    ensures Less(Iso(a), Iso(b)) <==> Micros(a) < Micros(b)
    ensures Iso(a) == Iso(b) <==> Micros(a) == Micros(b)
  {
    LessIsStrict(Iso(a), Iso(b));
    LessIsStrict(Iso(b), Iso(b));
    if Before(a, b) {
      TextOrder(a, b);
      MicrosOrder(a, b);
    } else if Before(b, a) {
      TextOrder(b, a);
      MicrosOrder(b, a);
    } else {
      assert a == b;
    }
  }
}
