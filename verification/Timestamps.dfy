/** Timestamps as the database sees them: ISO 8601 text, compared byte by byte.

    Every time test in the SQL (`next_retry_at <= ?`, `lease_expires_at < ?`, ORDER BY) is a
    string comparison on `isoformat()` output, and that output has two lengths: the fraction is
    absent when the microsecond is 0. The theorems below say that the bytes still sort exactly as
    the instants do, and that parsing gives the written datetime back. */
module Timestamps {
  import opened Wrappers

  // ---------- UTC datetimes and the instants they name ----------

  datatype DateTime = DateTime(year: int, month: int, day: int,
                               hour: int, minute: int, second: int, microsecond: int)

  predicate Leap(y: int) {
    y % 4 == 0 && (y % 100 != 0 || y % 400 == 0)
  }

  function DaysInMonth(y: int, m: int): int {
    if m == 2 then (if Leap(y) then 29 else 28)
    else if m == 4 || m == 6 || m == 9 || m == 11 then 30
    else 31
  }

  predicate IsDateTime(d: DateTime) {
    && 1 <= d.year <= 9999
    && 1 <= d.month <= 12
    && 1 <= d.day <= DaysInMonth(d.year, d.month)
    && 0 <= d.hour < 24
    && 0 <= d.minute < 60
    && 0 <= d.second < 60
    && 0 <= d.microsecond < 1_000_000
  }

  /** Days from 0001-01-01 to the first of January of year y (proleptic Gregorian). */
  function DaysBeforeYear(y: int): int {
    (y - 1) * 365 + (y - 1) / 4 - (y - 1) / 100 + (y - 1) / 400
  }

  function DaysBeforeMonth(y: int, m: int): int
    requires 1 <= m
    decreases m
  {
    if m == 1 then 0 else DaysBeforeMonth(y, m - 1) + DaysInMonth(y, m - 1)
  }

  function Ordinal(d: DateTime): int
    requires 1 <= d.month
  {
    DaysBeforeYear(d.year) + DaysBeforeMonth(d.year, d.month) + d.day - 1
  }

  function MicrosOfDay(d: DateTime): int {
    ((d.hour * 60 + d.minute) * 60 + d.second) * 1_000_000 + d.microsecond
  }

  const MICROS_PER_DAY: int := 86_400_000_000
  const DAYS: int := 3_652_059 // 0001-01-01 .. 9999-12-31

  /** Microseconds since 0001-01-01T00:00:00 UTC. */
  function Micros(d: DateTime): int
    requires 1 <= d.month
  {
    Ordinal(d) * MICROS_PER_DAY + MicrosOfDay(d)
  }

  /** The instants a datetime can name. */
  type Instant = t: int | 0 <= t < DAYS * MICROS_PER_DAY

  lemma YearLength(y: int)
    requires 1 <= y
    ensures DaysBeforeYear(y + 1) == DaysBeforeYear(y) + 365 + (if Leap(y) then 1 else 0)
  {
    Quotient4(y);
    Quotient100(y);
    Quotient400(y);
  }

  lemma Quotient4(y: int)
    ensures y / 4 == (y - 1) / 4 + (if y % 4 == 0 then 1 else 0)
  {
  }

  lemma Quotient100(y: int)
    ensures y / 100 == (y - 1) / 100 + (if y % 100 == 0 then 1 else 0)
  {
  }

  lemma Quotient400(y: int)
    ensures y / 400 == (y - 1) / 400 + (if y % 400 == 0 then 1 else 0)
  {
  }

  lemma YearsAscend(y: int, z: int)
    requires 1 <= y <= z
    ensures DaysBeforeYear(y) + 365 * (z - y) <= DaysBeforeYear(z)
    decreases z - y
  {
    if y < z {
      YearLength(z - 1);
      YearsAscend(y, z - 1);
    }
  }

  lemma MonthsAscend(y: int, m: int, n: int)
    requires 1 <= m <= n <= 13
    ensures DaysBeforeMonth(y, m) + 28 * (n - m) <= DaysBeforeMonth(y, n)
    ensures m < n ==> DaysBeforeMonth(y, m) + DaysInMonth(y, m) <= DaysBeforeMonth(y, n)
    decreases n - m
  {
    if m < n {
      MonthsAscend(y, m, n - 1);
    }
  }

  lemma TwelveMonths(y: int)
    ensures DaysBeforeMonth(y, 13) == 365 + (if Leap(y) then 1 else 0)
  {
    assert DaysBeforeMonth(y, 5) == DaysBeforeMonth(y, 3) + 61;
    assert DaysBeforeMonth(y, 7) == DaysBeforeMonth(y, 5) + 61;
    assert DaysBeforeMonth(y, 9) == DaysBeforeMonth(y, 7) + 62;
    assert DaysBeforeMonth(y, 11) == DaysBeforeMonth(y, 9) + 61;
  }

  lemma DayInsideYear(d: DateTime)
    requires IsDateTime(d)
    ensures DaysBeforeYear(d.year) <= Ordinal(d) < DaysBeforeYear(d.year + 1)
  {
    MonthsAscend(d.year, 1, d.month);
    MonthsAscend(d.year, d.month, 13);
    TwelveMonths(d.year);
    YearLength(d.year);
  }

  lemma MicrosInsideDay(d: DateTime)
    requires IsDateTime(d)
    ensures 0 <= MicrosOfDay(d) < MICROS_PER_DAY
  {
  }

  lemma MicrosIsInstant(d: DateTime)
    requires IsDateTime(d)
    ensures 0 <= Micros(d) < DAYS * MICROS_PER_DAY
  {
    DayInsideYear(d);
    YearsAscend(1, d.year);
    YearsAscend(d.year + 1, 10_000);
    MicrosInsideDay(d);
  }

  /** Field-by-field order, most significant field first. */
  predicate DateBefore(a: DateTime, b: DateTime) {
    || a.year < b.year
    || (a.year == b.year && (a.month < b.month || (a.month == b.month && a.day < b.day)))
  }

  predicate SameDate(a: DateTime, b: DateTime) {
    a.year == b.year && a.month == b.month && a.day == b.day
  }

  lemma EarlierDateSmallerOrdinal(a: DateTime, b: DateTime)
    requires IsDateTime(a) && IsDateTime(b) && DateBefore(a, b)
    ensures Ordinal(a) < Ordinal(b)
  {
    hide DaysBeforeYear, DaysBeforeMonth, DaysInMonth, Leap;
    if a.year < b.year {
      DayInsideYear(a);
      DayInsideYear(b);
      YearsAscend(a.year + 1, b.year);
    } else {
      MonthsAscend(a.year, a.month, b.month);
    }
  }

  /** The instant at position `t` on the time line, as a datetime: `Micros` backwards. */
  function YearOf(ordinal: int, y: int): (r: int)
    requires 1 <= y <= 9999
    requires DaysBeforeYear(y) <= ordinal < DAYS
    ensures y <= r <= 9999
    ensures DaysBeforeYear(r) <= ordinal < DaysBeforeYear(r + 1)
    decreases 9999 - y
  {
    if y < 9999 && DaysBeforeYear(y + 1) <= ordinal then YearOf(ordinal, y + 1) else y
  }

  function MonthOf(y: int, dayOfYear: int, m: int): (r: int)
    requires 1 <= m <= 12
    requires DaysBeforeMonth(y, m) <= dayOfYear < DaysBeforeMonth(y, 13)
    ensures m <= r <= 12
    ensures DaysBeforeMonth(y, r) <= dayOfYear < DaysBeforeMonth(y, r) + DaysInMonth(y, r)
    decreases 12 - m
  {
    if m < 12 && DaysBeforeMonth(y, m + 1) <= dayOfYear then MonthOf(y, dayOfYear, m + 1) else m
  }

  function At(t: Instant): (d: DateTime)
    ensures IsDateTime(d) && Micros(d) == t
  {
    var ordinal := t / MICROS_PER_DAY;
    var y := YearOf(ordinal, 1);
    TwelveMonths(y);
    YearLength(y);
    var dayOfYear := ordinal - DaysBeforeYear(y);
    var m := MonthOf(y, dayOfYear, 1);
    WithTime(y, m, dayOfYear - DaysBeforeMonth(y, m) + 1, t % MICROS_PER_DAY)
  }

  function WithTime(y: int, m: int, day: int, micros: int): (d: DateTime)
    requires 0 <= micros < MICROS_PER_DAY
    ensures d.year == y && d.month == m && d.day == day
    ensures 0 <= d.hour < 24 && 0 <= d.minute < 60 && 0 <= d.second < 60 && 0 <= d.microsecond < 1_000_000
    ensures MicrosOfDay(d) == micros
  {
    var seconds := micros / 1_000_000;
    var minutes := seconds / 60;
    DateTime(y, m, day, minutes / 60, minutes % 60, seconds % 60, micros % 1_000_000)
  }

  // ---------- isoformat() and fromisoformat() ----------

  function Digit(n: int): char
    requires 0 <= n < 10
  {
    "0123456789"[n]
  }

  function Pow10(k: nat): int {
    if k == 0 then 1 else 10 * Pow10(k - 1)
  }

  /** Decimal text of n, zero-padded to k digits. */
  function Pad(n: int, k: nat): (s: string)
    requires 0 <= n < Pow10(k)
    ensures |s| == k
  {
    if k == 0 then "" else Pad(n / 10, k - 1) + [Digit(n % 10)]
  }

  function Dated(d: DateTime, rest: string): (s: string)
    requires IsDateTime(d)
    ensures |s| == 11 + |rest|
  {
    Powers();
    Pad(d.year, 4) + ("-" + (Pad(d.month, 2) + ("-" + (Pad(d.day, 2) + ("T" + rest)))))
  }

  function TimeOfDay(d: DateTime, rest: string): (s: string)
    requires IsDateTime(d)
    ensures |s| == 8 + |rest|
  {
    Powers();
    Pad(d.hour, 2) + (":" + (Pad(d.minute, 2) + (":" + (Pad(d.second, 2) + rest))))
  }

  /** Date and time to the second: the 19 characters both shapes share. */
  function Stem(d: DateTime): (s: string)
    requires IsDateTime(d)
    ensures |s| == 19
  {
    Dated(d, TimeOfDay(d, ""))
  }

  function Fraction(d: DateTime): string
    requires IsDateTime(d)
  {
    if d.microsecond == 0 then "" else "." + Pad(d.microsecond, 6)
  }

  function Tail(d: DateTime): (s: string)
    requires IsDateTime(d)
    ensures |s| == if d.microsecond == 0 then 6 else 13
  {
    Fraction(d) + "+00:00"
  }

  /** `_iso`: isoformat() of a UTC datetime. */
  function Iso(d: DateTime): (s: string)
    requires IsDateTime(d)
    ensures |s| == if d.microsecond == 0 then 25 else 32
  {
    Stem(d) + Tail(d)
  }

  function Number(s: string): Option<int> {
    if s == "" then Some(0)
    else
      var front := Number(s[..|s| - 1]);
      var c := s[|s| - 1];
      if front.Some? && '0' <= c <= '9' then Some(10 * front.value + (c as int - '0' as int)) else None
  }

  function DateOf(s: string): (d: Option<DateTime>)
    requires |s| == 19
  {
    if s[4] != '-' || s[7] != '-' || s[10] != 'T' || s[13] != ':' || s[16] != ':' then None
    else
      match (Number(s[0..4]), Number(s[5..7]), Number(s[8..10]),
             Number(s[11..13]), Number(s[14..16]), Number(s[17..19]))
      case (Some(y), Some(mo), Some(d), Some(h), Some(mi), Some(sec)) => Some(DateTime(y, mo, d, h, mi, sec, 0))
      case _ => None
  }

  function MicrosecondOf(s: string): Option<int> {
    if s == "+00:00" then Some(0)
    else if |s| == 13 && s[0] == '.' && s[7..] == "+00:00" then Number(s[1..7])
    else None
  }

  /** Parse the two shapes `Iso` writes; None stands for the ValueError of a malformed text. */
  function FromIso(s: string): Option<DateTime> {
    if |s| < 19 then None
    else
      match (DateOf(s[..19]), MicrosecondOf(s[19..]))
      case (Some(d), Some(us)) =>
        var dt := d.(microsecond := us);
        if IsDateTime(dt) then Some(dt) else None
      case _ => None
  }

  lemma DigitIsItsValue(n: int)
    requires 0 <= n < 10
    ensures '0' <= Digit(n) <= '9' && Digit(n) as int - '0' as int == n
  {
    assert n == 0 || n == 1 || n == 2 || n == 3 || n == 4 || n == 5 || n == 6 || n == 7 || n == 8 || n == 9;
  }

  lemma {:induction false} NumberOfPad(n: int, k: nat)
    requires 0 <= n < Pow10(k)
    ensures Number(Pad(n, k)) == Some(n)
  {
    hide Digit;
    if k > 0 {
      NumberOfPad(n / 10, k - 1);
      DigitIsItsValue(n % 10);
      var s := Pad(n, k);
      assert s == Pad(n / 10, k - 1) + [Digit(n % 10)];
      assert s[..|s| - 1] == Pad(n / 10, k - 1);
    }
  }

  lemma Powers()
    ensures Pow10(2) == 100 && Pow10(4) == 10_000 && Pow10(6) == 1_000_000
  {
    assert Pow10(3) == 1000 && Pow10(5) == 100_000;
  }

  lemma DatedFields(d: DateTime, rest: string)
    requires IsDateTime(d)
    ensures var s := Dated(d, rest);
      && s[0..4] == Pad(d.year, 4) && s[5..7] == Pad(d.month, 2) && s[8..10] == Pad(d.day, 2)
      && s[4] == s[7] == '-' && s[10] == 'T' && s[11..] == rest
  {
  }

  lemma TimeFields(d: DateTime, rest: string)
    requires IsDateTime(d)
    ensures var s := TimeOfDay(d, rest);
      && s[0..2] == Pad(d.hour, 2) && s[3..5] == Pad(d.minute, 2) && s[6..8] == Pad(d.second, 2)
      && s[2] == s[5] == ':' && s[8..] == rest
  {
  }

  lemma StemFields(d: DateTime)
    requires IsDateTime(d)
    ensures var s := Stem(d);
      && s[0..4] == Pad(d.year, 4) && s[5..7] == Pad(d.month, 2) && s[8..10] == Pad(d.day, 2)
      && s[11..13] == Pad(d.hour, 2) && s[14..16] == Pad(d.minute, 2) && s[17..19] == Pad(d.second, 2)
      && s[4] == s[7] == '-' && s[10] == 'T' && s[13] == s[16] == ':'
  {
    hide Pad, TimeOfDay, Dated;
    var s, t := Stem(d), TimeOfDay(d, "");
    DatedFields(d, t);
    TimeFields(d, "");
    assert forall i, j {:trigger t[i..j]} | 0 <= i <= j <= 8 :: s[11..][i..j] == s[11 + i..11 + j];
    assert s[13] == s[11..][2] && s[16] == s[11..][5];
  }

  lemma NumbersOfStem(d: DateTime)
    requires IsDateTime(d)
    ensures var s := Stem(d);
      && Number(s[0..4]) == Some(d.year) && Number(s[5..7]) == Some(d.month) && Number(s[8..10]) == Some(d.day)
      && Number(s[11..13]) == Some(d.hour) && Number(s[14..16]) == Some(d.minute)
      && Number(s[17..19]) == Some(d.second)
  {
    Powers();
    StemFields(d);
    NumberOfPad(d.year, 4);
    NumberOfPad(d.month, 2);
    NumberOfPad(d.day, 2);
    NumberOfPad(d.hour, 2);
    NumberOfPad(d.minute, 2);
    NumberOfPad(d.second, 2);
  }

  lemma DateOfStem(d: DateTime)
    requires IsDateTime(d)
    ensures DateOf(Stem(d)) == Some(d.(microsecond := 0))
  {
    StemFields(d);
    NumbersOfStem(d);
  }

  lemma MicrosecondOfTail(d: DateTime)
    requires IsDateTime(d)
    ensures MicrosecondOf(Tail(d)) == Some(d.microsecond)
  {
    Powers();
    if d.microsecond != 0 {
      var t, us := Tail(d), Pad(d.microsecond, 6);
      assert t == "." + us + "+00:00";
      assert t[1..7] == us && t[7..] == "+00:00" && t[0] == '.';
      NumberOfPad(d.microsecond, 6);
    }
  }

  /** `_from_iso(_iso(d)) == d`, fraction or no fraction. */
  lemma ParseOfIso(d: DateTime)
    requires IsDateTime(d)
    ensures FromIso(Iso(d)) == Some(d)
  {
    DateOfStem(d);
    MicrosecondOfTail(d);
    assert Iso(d)[..19] == Stem(d) && Iso(d)[19..] == Tail(d);
  }

  // ---------- text order is time order ----------

  /** SQLite's default (BINARY) collation: bytewise, a proper prefix first. */
  predicate TextLess(a: string, b: string) {
    if b == "" then false
    else if a == "" then true
    else if a[0] != b[0] then a[0] < b[0]
    else TextLess(a[1..], b[1..])
  }

  predicate TextAtMost(a: string, b: string) {
    !TextLess(b, a)
  }

  lemma {:induction false} SharedPrefix(p: string, x: string, y: string)
    ensures TextLess(p + x, p + y) == TextLess(x, y)
  {
    if p == "" {
      assert p + x == x && p + y == y;
    } else {
      assert (p + x)[1..] == p[1..] + x && (p + y)[1..] == p[1..] + y;
      SharedPrefix(p[1..], x, y);
    }
  }

  lemma DigitOrder(n: int, m: int)
    requires 0 <= n < 10 && 0 <= m < 10
    ensures Digit(n) < Digit(m) <==> n < m
    ensures Digit(n) == Digit(m) <==> n == m
  {
    DigitIsItsValue(n);
    DigitIsItsValue(m);
  }

  /** Whatever follows, zero-padded numbers of equal width sort as the numbers do. */
  lemma {:induction false} PaddedOrder(n: int, m: int, k: nat, x: string, y: string)
    requires 0 <= n < Pow10(k) && 0 <= m < Pow10(k)
    ensures TextLess(Pad(n, k) + x, Pad(m, k) + y) == (n < m || (n == m && TextLess(x, y)))
  {
    hide Digit, TextLess;
    if k == 0 {
      assert Pad(n, k) + x == x && Pad(m, k) + y == y;
    } else {
      var x', y' := [Digit(n % 10)] + x, [Digit(m % 10)] + y;
      PaddedOrder(n / 10, m / 10, k - 1, x', y');
      assert Pad(n, k) + x == Pad(n / 10, k - 1) + x';
      assert Pad(m, k) + y == Pad(m / 10, k - 1) + y';
      DigitOrder(n % 10, m % 10);
      TextLessCons(Digit(n % 10), x, Digit(m % 10), y);
    }
  }

  lemma TextLessCons(c: char, x: string, d: char, y: string)
    ensures TextLess([c] + x, [d] + y) == (c < d || (c == d && TextLess(x, y)))
  {
    assert ([c] + x)[1..] == x && ([d] + y)[1..] == y;
  }

  lemma FieldOrder(n: int, m: int, k: nat, separator: string, x: string, y: string)
    requires 0 <= n < Pow10(k) && 0 <= m < Pow10(k)
    ensures TextLess(Pad(n, k) + (separator + x), Pad(m, k) + (separator + y))
         == (n < m || (n == m && TextLess(x, y)))
  {
    PaddedOrder(n, m, k, separator + x, separator + y);
    SharedPrefix(separator, x, y);
  }

  /** '+' sorts before '.', so the text without a fraction comes first, as it should. */
  lemma TailOrder(a: DateTime, b: DateTime)
    requires IsDateTime(a) && IsDateTime(b)
    ensures TextLess(Tail(a), Tail(b)) == (a.microsecond < b.microsecond)
  {
    Powers();
    var offset := "+00:00";
    if a.microsecond == 0 && b.microsecond == 0 {
      SharedPrefix(offset, "", "");
      assert Tail(a) == Tail(b) == offset + "";
    } else if a.microsecond == 0 {
      assert Tail(a)[0] == '+' && Tail(b)[0] == '.';
    } else if b.microsecond == 0 {
      assert Tail(a)[0] == '.' && Tail(b)[0] == '+';
    } else {
      assert Tail(a) == "." + (Pad(a.microsecond, 6) + offset);
      assert Tail(b) == "." + (Pad(b.microsecond, 6) + offset);
      SharedPrefix(".", Pad(a.microsecond, 6) + offset, Pad(b.microsecond, 6) + offset);
      PaddedOrder(a.microsecond, b.microsecond, 6, offset, offset);
      SharedPrefix(offset, "", "");
      assert offset + "" == offset;
    }
  }

  lemma TimeOrder(a: DateTime, b: DateTime)
    requires IsDateTime(a) && IsDateTime(b)
    ensures TextLess(TimeOfDay(a, Tail(a)), TimeOfDay(b, Tail(b))) == (MicrosOfDay(a) < MicrosOfDay(b))
  {
    Powers();
    TailOrder(a, b);
    PaddedOrder(a.second, b.second, 2, Tail(a), Tail(b));
    var sa, sb := Pad(a.second, 2) + Tail(a), Pad(b.second, 2) + Tail(b);
    FieldOrder(a.minute, b.minute, 2, ":", sa, sb);
    FieldOrder(a.hour, b.hour, 2, ":", Pad(a.minute, 2) + (":" + sa), Pad(b.minute, 2) + (":" + sb));
  }

  lemma DatedPrefix(d: DateTime, x: string, y: string)
    requires IsDateTime(d)
    ensures Dated(d, x + y) == Dated(d, x) + y
  {
    Powers();
    assert Pad(d.day, 2) + ("T" + (x + y)) == Pad(d.day, 2) + ("T" + x) + y;
    assert forall r: string :: Pad(d.month, 2) + ("-" + (r + y)) == Pad(d.month, 2) + ("-" + r) + y;
    assert forall r: string :: Pad(d.year, 4) + ("-" + (r + y)) == Pad(d.year, 4) + ("-" + r) + y;
  }

  lemma TimePrefix(d: DateTime, x: string, y: string)
    requires IsDateTime(d)
    ensures TimeOfDay(d, x + y) == TimeOfDay(d, x) + y
  {
    Powers();
    assert Pad(d.second, 2) + (x + y) == Pad(d.second, 2) + x + y;
    assert forall r: string :: Pad(d.minute, 2) + (":" + (r + y)) == Pad(d.minute, 2) + (":" + r) + y;
    assert forall r: string :: Pad(d.hour, 2) + (":" + (r + y)) == Pad(d.hour, 2) + (":" + r) + y;
  }

  lemma IsoIsDateThenTime(d: DateTime)
    requires IsDateTime(d)
    ensures Iso(d) == Dated(d, TimeOfDay(d, Tail(d)))
  {
    TimePrefix(d, "", Tail(d));
    assert "" + Tail(d) == Tail(d);
    DatedPrefix(d, TimeOfDay(d, ""), Tail(d));
  }

  lemma DatedOrder(a: DateTime, b: DateTime, x: string, y: string)
    requires IsDateTime(a) && IsDateTime(b)
    ensures TextLess(Dated(a, x), Dated(b, y)) == (DateBefore(a, b) || (SameDate(a, b) && TextLess(x, y)))
  {
    Powers();
    FieldOrder(a.day, b.day, 2, "T", x, y);
    var da, db := Pad(a.day, 2) + ("T" + x), Pad(b.day, 2) + ("T" + y);
    FieldOrder(a.month, b.month, 2, "-", da, db);
    FieldOrder(a.year, b.year, 4, "-", Pad(a.month, 2) + ("-" + da), Pad(b.month, 2) + ("-" + db));
  }

  /** Main result: byte order of the stored text is the order of the instants. */
  lemma TextOrderIsTimeOrder(a: DateTime, b: DateTime)
    requires IsDateTime(a) && IsDateTime(b)
    ensures TextLess(Iso(a), Iso(b)) <==> Micros(a) < Micros(b)
  {
    IsoIsDateThenTime(a);
    IsoIsDateThenTime(b);
    DatedOrder(a, b, TimeOfDay(a, Tail(a)), TimeOfDay(b, Tail(b)));
    TimeOrder(a, b);
    FieldOrderIsTimeOrder(a, b);
  }

  lemma FieldOrderIsTimeOrder(a: DateTime, b: DateTime)
    requires IsDateTime(a) && IsDateTime(b)
    ensures Micros(a) < Micros(b) <==> DateBefore(a, b) || (SameDate(a, b) && MicrosOfDay(a) < MicrosOfDay(b))
  {
    MicrosInsideDay(a);
    MicrosInsideDay(b);
    if DateBefore(a, b) {
      EarlierDateSmallerOrdinal(a, b);
    } else if DateBefore(b, a) {
      EarlierDateSmallerOrdinal(b, a);
    }
  }

  // ---------- the same facts for instants ----------

  function Text(t: Instant): string {
    Iso(At(t))
  }

  function Parse(s: string): (t: Option<Instant>) {
    match FromIso(s)
    case None => None
    case Some(d) => MicrosIsInstant(d); Some(Micros(d))
  }

  lemma TextOrder(s: Instant, t: Instant)
    ensures TextLess(Text(s), Text(t)) <==> s < t
    ensures TextAtMost(Text(s), Text(t)) <==> s <= t
    ensures Text(s) == Text(t) <==> s == t
    ensures Parse(Text(s)) == Some(s)
    ensures Text(s) != ""
  {
    TextOrderIsTimeOrder(At(s), At(t));
    TextOrderIsTimeOrder(At(t), At(s));
    ParseOfIso(At(s));
    ParseOfIso(At(t));
  }

  // ---------- samples ----------

  lemma PadTwo(n: int)
    requires 0 <= n < 100
    ensures n < Pow10(2) && Pad(n, 2) == [Digit(n / 10), Digit(n % 10)]
  {
    Powers();
    assert Pad(n / 10, 1) == Pad(n / 100, 0) + [Digit(n / 10 % 10)];
  }

  lemma PadsOfSample()
    ensures 7 < Pow10(2) && 4 < Pow10(2) && 9 < Pow10(2) && 5 < Pow10(2) && 3 < Pow10(2)
    ensures Pad(7, 2) == "07" && Pad(4, 2) == "04" && Pad(9, 2) == "09" && Pad(5, 2) == "05" && Pad(3, 2) == "03"
  {
    PadTwo(7);
    PadTwo(4);
    PadTwo(9);
    PadTwo(5);
    PadTwo(3);
  }

  lemma PadOfYear()
    ensures 2026 < Pow10(4) && Pad(2026, 4) == "2026"
  {
    Powers();
    PadTwo(20);
    assert Pow10(3) == 1000;
    assert Pad(202, 3) == Pad(20, 2) + [Digit(2)];
    assert Pad(2026, 4) == Pad(202, 3) + [Digit(6)];
  }

  lemma PadOfMicroseconds()
    ensures 42 < Pow10(6) && Pad(42, 6) == "000042"
  {
    Powers();
    PadTwo(0);
    assert Pow10(3) == 1000 && Pow10(5) == 100_000;
    assert Pad(0, 3) == Pad(0, 2) + [Digit(0)];
    assert Pad(0, 4) == Pad(0, 3) + [Digit(0)];
    assert Pad(4, 5) == Pad(0, 4) + [Digit(4)];
    assert Pad(42, 6) == Pad(4, 5) + [Digit(2)];
  }

  lemma DateOfSample(d: DateTime, rest: string)
    requires IsDateTime(d) && d.year == 2026 && d.month == 7 && d.day == 4
    ensures Dated(d, rest) == "2026-07-04T" + rest
  {
    hide Pad;
    PadOfYear();
    PadsOfSample();
  }

  lemma TimeOfSample(d: DateTime, rest: string)
    requires IsDateTime(d) && d.hour == 9 && d.minute == 5 && d.second == 3
    ensures TimeOfDay(d, rest) == "09:05:03" + rest
  {
    hide Pad;
    PadsOfSample();
  }

  lemma TailOfSample(d: DateTime)
    requires IsDateTime(d)
    ensures d.microsecond == 0 ==> Tail(d) == "+00:00"
    ensures d.microsecond == 42 ==> Tail(d) == ".000042+00:00"
  {
    hide Pad;
    PadOfMicroseconds();
  }

  /** The written form, on two moments of the fourth of July 2026. */
  lemma WrittenForm()
    ensures Iso(DateTime(2026, 7, 4, 9, 5, 3, 0)) == "2026-07-04T09:05:03+00:00"
    ensures Iso(DateTime(2026, 7, 4, 9, 5, 3, 42)) == "2026-07-04T09:05:03.000042+00:00"
  {
    hide Dated, TimeOfDay, Tail;
    var d, e := DateTime(2026, 7, 4, 9, 5, 3, 0), DateTime(2026, 7, 4, 9, 5, 3, 42);
    DateOfSample(d, TimeOfDay(d, ""));
    DateOfSample(e, TimeOfDay(e, ""));
    TimeOfSample(d, "");
    TimeOfSample(e, "");
    TailOfSample(d);
    TailOfSample(e);
  }

  /** Known positions on the time line: the Unix epoch, and the day after February in 1900 and in 2000. */
  lemma KnownMoments()
    ensures Micros(DateTime(1970, 1, 1, 0, 0, 0, 0)) == 62_135_596_800 * 1_000_000
    ensures Micros(DateTime(1900, 3, 1, 0, 0, 1, 0)) == (693_654 * 86_400 + 1) * 1_000_000
    ensures Micros(DateTime(2000, 3, 1, 0, 1, 0, 5)) == (730_179 * 86_400 + 60) * 1_000_000 + 5
  {
    assert DaysBeforeMonth(1900, 2) == DaysBeforeMonth(1900, 1) + 31;
    assert DaysBeforeMonth(2000, 2) == DaysBeforeMonth(2000, 1) + 31;
  }
}
