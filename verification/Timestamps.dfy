/** RFC 3339 timestamps and the calendar: when comparing the texts compares the instants. */
module Timestamps {
  import opened TextOrder

  // ---------- the calendar ----------

  predicate IsLeap(year: nat) { year % 4 == 0 && (year % 100 != 0 || year % 400 == 0) }

  function MonthLength(year: nat, month: nat): nat {
    if month == 2 then (if IsLeap(year) then 29 else 28)
    else if month == 4 || month == 6 || month == 9 || month == 11 then 30
    else 31
  }

  function DaysBeforeMonth(year: nat, month: nat): nat
    requires 1 <= month
  {
    if month == 1 then 0 else DaysBeforeMonth(year, month - 1) + MonthLength(year, month - 1)
  }

  function YearLength(year: nat): nat { DaysBeforeMonth(year, 13) }

  function DaysBeforeYear(year: nat): nat {
    if year == 0 then 0 else DaysBeforeYear(year - 1) + YearLength(year - 1)
  }

  function Power10(k: nat): (p: nat)
    ensures p >= 1
  {
    if k == 0 then 1 else 10 * Power10(k - 1)
  }

  /** `Offset` is a numeric zone: so many hours and minutes ahead of UTC, or behind it. */
  datatype Zone = Zulu | Offset(ahead: bool, hours: nat, minutes: nat)

  /** Date, time of day, a fraction of a second with `digits` digits, and the zone. */
  datatype Timestamp = Timestamp(
    year: nat, month: nat, day: nat, hour: nat, minute: nat, second: nat, digits: nat, fraction: nat, zone: Zone)

  /** A time that exists, leap seconds aside. */
  predicate IsTime(t: Timestamp) {
    && t.year <= 9999 && 1 <= t.month <= 12 && 1 <= t.day <= MonthLength(t.year, t.month)
    && t.hour < 24 && t.minute < 60 && t.second < 60 && t.fraction < Power10(t.digits)
    && (t.zone.Offset? ==> t.zone.hours < 24 && t.zone.minutes < 60)
  }

  /** Days since the first day of year 0. */
  function DayNumber(t: Timestamp): int
    requires IsTime(t)
  {
    DaysBeforeYear(t.year) + DaysBeforeMonth(t.year, t.month) + (t.day - 1)
  }

  function SecondOfDay(t: Timestamp): int { (t.hour * 60 + t.minute) * 60 + t.second }

  function ZoneSeconds(zone: Zone): int {
    match zone
    case Zulu => 0
    case Offset(ahead, h, m) => if ahead then (h * 60 + m) * 60 else -((h * 60 + m) * 60)
  }

  /** The instant, in units of the timestamp's own precision. */
  function Instant(t: Timestamp): int
    requires IsTime(t)
  {
    (DayNumber(t) * 86400 + SecondOfDay(t) - ZoneSeconds(t.zone)) * Power10(t.digits) + t.fraction
  }

  // ---------- the text ----------

  function Digit(d: nat): char
    requires d < 10
  {
    (d + '0' as int) as char
  }

  /** The last `width` digits of `n`. */
  function Pad(n: nat, width: nat): (s: string)
    ensures |s| == width
  {
    if width == 0 then "" else Pad(n / 10, width - 1) + [Digit(n % 10)]
  }

  function ZoneText(zone: Zone): string {
    match zone
    case Zulu => "Z"
    case Offset(ahead, h, m) => (if ahead then "+" else "-") + Pad(h, 2) + ":" + Pad(m, 2)
  }

  function FractionText(t: Timestamp): string {
    if t.digits == 0 then ZoneText(t.zone) else "." + (Pad(t.fraction, t.digits) + ZoneText(t.zone))
  }

  function TimeText(t: Timestamp): string {
    Pad(t.hour, 2) + (":" + (Pad(t.minute, 2) + (":" + (Pad(t.second, 2) + FractionText(t)))))
  }

  /** `YYYY-MM-DDTHH:MM:SS[.f...]zone`. */
  function Text(t: Timestamp): string {
    Pad(t.year, 4) + ("-" + (Pad(t.month, 2) + ("-" + (Pad(t.day, 2) + ("T" + TimeText(t))))))
  }

  // ---------- order of texts ----------

  lemma {:induction false} PadOrder(a: nat, b: nat, width: nat)
    requires a < Power10(width) && b < Power10(width)
    ensures Less(Pad(a, width), Pad(b, width)) <==> a < b
    ensures Pad(a, width) == Pad(b, width) <==> a == b
  {
    if width > 0 {
      PadOrder(a / 10, b / 10, width - 1);
      var x, y := Pad(a / 10, width - 1), Pad(b / 10, width - 1);
      var p, q := [Digit(a % 10)], [Digit(b % 10)];
      assert Pad(a, width)[..width - 1] == x && Pad(b, width)[..width - 1] == y;
      assert Pad(a, width)[width - 1..] == p && Pad(b, width)[width - 1..] == q;
      if x == y {
        LessAfterPrefix(x, p, q);
      } else {
        LessBeforeSuffix(x, y, p, q);
      }
    }
  }

  /** A numeral of fixed width in front. */
  lemma {:induction false} FieldOrder(a: nat, b: nat, width: nat, s: string, t: string)
    requires a < Power10(width) && b < Power10(width)
    ensures Less(Pad(a, width) + s, Pad(b, width) + t) <==> a < b || (a == b && Less(s, t))
    ensures Pad(a, width) + s == Pad(b, width) + t <==> a == b && s == t
  {
    PadOrder(a, b, width);
    hide Pad, Less;
    var x, y := Pad(a, width), Pad(b, width);
    assert (x + s)[..width] == x && (y + t)[..width] == y && (x + s)[width..] == s && (y + t)[width..] == t;
    if a == b {
      LessAfterPrefix(x, s, t);
    } else {
      LessBeforeSuffix(x, y, s, t);
    }
  }

  /** A numeral and a mark behind it. */
  lemma {:induction false} MarkOrder(a: nat, b: nat, width: nat, mark: string, s: string, t: string)
    requires a < Power10(width) && b < Power10(width)
    ensures Less(Pad(a, width) + (mark + s), Pad(b, width) + (mark + t)) <==> a < b || (a == b && Less(s, t))
    ensures Pad(a, width) + (mark + s) == Pad(b, width) + (mark + t) <==> a == b && s == t
  {
    hide Pad, Less;
    FieldOrder(a, b, width, mark + s, mark + t);
    LessAfterPrefix(mark, s, t);
    assert (mark + s)[|mark|..] == s && (mark + t)[|mark|..] == t;
  }

  /** Field by field, from the year down. */
  predicate Earlier(a: Timestamp, b: Timestamp) {
    || a.year < b.year || (a.year == b.year &&
    (a.month < b.month || (a.month == b.month &&
    (a.day < b.day || (a.day == b.day && EarlierTime(a, b))))))
  }

  predicate EarlierTime(a: Timestamp, b: Timestamp) {
    || a.hour < b.hour || (a.hour == b.hour &&
    (a.minute < b.minute || (a.minute == b.minute &&
    (a.second < b.second || (a.second == b.second && a.fraction < b.fraction)))))
  }

  lemma {:induction false} Powers()
    ensures Power10(0) == 1 && Power10(2) == 100 && Power10(4) == 10000
  {
    assert Power10(1) == 10 && Power10(3) == 1000;
  }

  lemma {:induction false} FractionOrder(a: Timestamp, b: Timestamp)
    requires IsTime(a) && IsTime(b) && a.digits == b.digits && a.zone == b.zone
    ensures Less(FractionText(a), FractionText(b)) <==> a.fraction < b.fraction
    ensures FractionText(a) == FractionText(b) <==> a.fraction == b.fraction
  {
    hide Pad, Less, ZoneText;
    Powers();
    var z := ZoneText(a.zone);
    LessIrreflexive(z);
    if a.digits > 0 {
      var x, y := Pad(a.fraction, a.digits) + z, Pad(b.fraction, b.digits) + z;
      FieldOrder(a.fraction, b.fraction, a.digits, z, z);
      LessAfterPrefix(".", x, y);
      assert ("." + x)[1..] == x && ("." + y)[1..] == y;
    }
  }

  lemma {:induction false} TimeTextOrder(a: Timestamp, b: Timestamp)
    requires IsTime(a) && IsTime(b) && a.digits == b.digits && a.zone == b.zone
    ensures Less(TimeText(a), TimeText(b)) <==> EarlierTime(a, b)
  {
    hide Pad, Less, FractionText;
    Powers();
    FractionOrder(a, b);
    var x, y := FractionText(a), FractionText(b);
    FieldOrder(a.second, b.second, 2, x, y);
    MarkOrder(a.minute, b.minute, 2, ":", Pad(a.second, 2) + x, Pad(b.second, 2) + y);
    MarkOrder(a.hour, b.hour, 2, ":",
              Pad(a.minute, 2) + (":" + (Pad(a.second, 2) + x)), Pad(b.minute, 2) + (":" + (Pad(b.second, 2) + y)));
  }

  lemma {:induction false} TextIsFieldOrder(a: Timestamp, b: Timestamp)
    requires IsTime(a) && IsTime(b) && a.digits == b.digits && a.zone == b.zone
    ensures Less(Text(a), Text(b)) <==> Earlier(a, b)
  {
    hide Pad, Less, TimeText, EarlierTime;
    Powers();
    TimeTextOrder(a, b);
    var x, y := TimeText(a), TimeText(b);
    MarkOrder(a.day, b.day, 2, "T", x, y);
    MarkOrder(a.month, b.month, 2, "-", Pad(a.day, 2) + ("T" + x), Pad(b.day, 2) + ("T" + y));
    MarkOrder(a.year, b.year, 4, "-",
              Pad(a.month, 2) + ("-" + (Pad(a.day, 2) + ("T" + x))),
              Pad(b.month, 2) + ("-" + (Pad(b.day, 2) + ("T" + y))));
  }

  // ---------- order of instants ----------

  lemma {:induction false} MonthsAdd(year: nat, m: nat, n: nat)
    requires 1 <= m <= n
    ensures DaysBeforeMonth(year, m) <= DaysBeforeMonth(year, n)
    ensures m < n ==> DaysBeforeMonth(year, m) + MonthLength(year, m) <= DaysBeforeMonth(year, n)
  {
    if m < n { MonthsAdd(year, m, n - 1); }
  }

  lemma {:induction false} YearsAdd(y: nat, z: nat)
    requires y < z
    ensures DaysBeforeYear(y) + YearLength(y) <= DaysBeforeYear(z)
  {
    hide YearLength;
    if y < z - 1 { YearsAdd(y, z - 1); }
  }

  lemma {:induction false} DayOrder(a: Timestamp, b: Timestamp)
    requires IsTime(a) && IsTime(b)
    requires a.year < b.year || (a.year == b.year && (a.month < b.month || (a.month == b.month && a.day < b.day)))
    ensures DayNumber(a) < DayNumber(b)
  {
    hide DaysBeforeMonth, DaysBeforeYear, MonthLength;
    if a.year < b.year {
      MonthsAdd(a.year, a.month, 13);
      YearsAdd(a.year, b.year);
    } else if a.month < b.month {
      MonthsAdd(a.year, a.month, b.month);
    }
  }

  lemma {:induction false} EarlierIsBefore(a: Timestamp, b: Timestamp)
    requires IsTime(a) && IsTime(b) && a.digits == b.digits && a.zone == b.zone && Earlier(a, b)
    ensures Instant(a) < Instant(b)
  {
    hide DayNumber, Power10, MonthLength, ZoneSeconds;
    var p := Power10(a.digits);
    if a.year == b.year && a.month == b.month && a.day == b.day {
      SameDay(a, b);
    } else {
      DayOrder(a, b);
    }
    var x := DayNumber(a) * 86400 + SecondOfDay(a) - ZoneSeconds(a.zone);
    var y := DayNumber(b) * 86400 + SecondOfDay(b) - ZoneSeconds(b.zone);
    assert x < y || (x == y && a.fraction < b.fraction);
    Scale(x, y, p, a.fraction, b.fraction);
  }

  lemma {:induction false} SameDay(a: Timestamp, b: Timestamp)
    requires IsTime(a) && IsTime(b) && a.year == b.year && a.month == b.month && a.day == b.day
    ensures DayNumber(a) == DayNumber(b)
  {
    hide DaysBeforeMonth, DaysBeforeYear;
  }

  lemma {:induction false} Scale(x: int, y: int, p: nat, f: nat, g: nat)
    requires p >= 1 && f < p && g < p
    requires x < y || (x == y && f < g)
    ensures x * p + f < y * p + g
  {
    if x < y {
      var d := y - x;
      AtLeastOnce(d, p);
      Distributes(x, d, p);
      assert x + d == y;
    }
  }

  lemma {:induction false} AtLeastOnce(d: nat, p: nat)
    requires d >= 1
    ensures d * p >= p
  {
    if d > 1 {
      AtLeastOnce(d - 1, p);
      Distributes(1, d - 1, p);
    }
  }

  lemma {:induction false} Distributes(x: int, d: int, p: int)
    ensures (x + d) * p == x * p + d * p
  {
  }

  lemma {:induction false} SameText(a: Timestamp, b: Timestamp)
    requires IsTime(a) && IsTime(b) && a.digits == b.digits && a.zone == b.zone && !Earlier(a, b) && !Earlier(b, a)
    ensures a == b
  {
  }

  /** Section 5.1 of RFC 3339: between timestamps written with one zone and one number of fraction
    digits, the order of the texts is the order of the instants. */
  lemma {:induction false} TextOrderIsTimeOrder(a: Timestamp, b: Timestamp)
    requires IsTime(a) && IsTime(b) && a.digits == b.digits && a.zone == b.zone
    ensures Less(Text(a), Text(b)) <==> Instant(a) < Instant(b)
    ensures LessOrEqual(Text(a), Text(b)) <==> Instant(a) <= Instant(b)
    ensures Text(a) == Text(b) <==> a == b
  {
    hide Text, Instant, Less, Earlier, IsTime;
    TextIsFieldOrder(a, b);
    TextIsFieldOrder(b, a);
    LessIrreflexive(Text(a));
    if Earlier(a, b) {
      EarlierIsBefore(a, b);
    } else if Earlier(b, a) {
      EarlierIsBefore(b, a);
      NotBoth(Text(a), Text(b));
    } else {
      SameText(a, b);
    }
  }

  lemma {:induction false} NotBoth(s: string, t: string)
    requires Less(t, s)
    ensures !Less(s, t) && s != t
  {
    LessIrreflexive(t);
    if Less(s, t) { LessTransitive(t, s, t); }
  }

  // ---------- nothing less will do ----------

  /** `a` is not later than `b`, at whatever precision they are written. */
  predicate NotAfter(a: Timestamp, b: Timestamp)
    requires IsTime(a) && IsTime(b)
  {
    Instant(a) * Power10(b.digits) <= Instant(b) * Power10(a.digits)
  }

  /** The comparison of the texts is right about these two. */
  predicate Agrees(a: Timestamp, b: Timestamp)
    requires IsTime(a) && IsTime(b)
  {
    LessOrEqual(Text(a), Text(b)) <==> NotAfter(a, b)
  }

  lemma {:induction false} MulKeepsOrder(x: int, y: int, p: nat)
    requires p >= 1
    ensures x * p <= y * p <==> x <= y
  {
    if x < y { Scale(x, y, p, 0, 0); }
    if y < x { Scale(y, x, p, 0, 0); }
  }

  lemma {:induction false} SameFormAgrees(a: Timestamp, b: Timestamp)
    requires IsTime(a) && IsTime(b) && a.digits == b.digits && a.zone == b.zone
    ensures Agrees(a, b)
  {
    hide Text, Instant, Less, IsTime, LessOrEqual, Power10;
    TextOrderIsTimeOrder(a, b);
    MulKeepsOrder(Instant(a), Instant(b), Power10(a.digits));
  }

  /** Ten o'clock and so many seconds. */
  function At(second: nat, digits: nat, zone: Zone): Timestamp {
    Timestamp(2026, 5, 2, 10, 0, second, digits, 0, zone)
  }

  predicate IsZone(zone: Zone) { zone.Offset? ==> zone.hours < 24 && zone.minutes < 60 }

  lemma {:induction false} AtIsTime(second: nat, digits: nat, zone: Zone)
    requires second < 60 && IsZone(zone)
    ensures IsTime(At(second, digits, zone))
  {
  }

  /** Whatever follows, an earlier second comes first. */
  lemma {:induction false} SecondsDecide(s: nat, d1: nat, z1: Zone, t: nat, d2: nat, z2: Zone)
    requires s < 60 && t < 60
    ensures Less(Text(At(s, d1, z1)), Text(At(t, d2, z2))) <==>
            s < t || (s == t && Less(FractionText(At(s, d1, z1)), FractionText(At(t, d2, z2))))
    ensures Text(At(s, d1, z1)) == Text(At(t, d2, z2)) <==>
            s == t && FractionText(At(s, d1, z1)) == FractionText(At(t, d2, z2))
  {
    hide Pad, Less, FractionText;
    Powers();
    var a, b := At(s, d1, z1), At(t, d2, z2);
    var x, y := FractionText(a), FractionText(b);
    FieldOrder(s, t, 2, x, y);
    MarkOrder(0, 0, 2, ":", Pad(s, 2) + x, Pad(t, 2) + y);
    var m, n := Pad(0, 2) + (":" + (Pad(s, 2) + x)), Pad(0, 2) + (":" + (Pad(t, 2) + y));
    MarkOrder(10, 10, 2, ":", m, n);
    MarkOrder(2, 2, 2, "T", TimeText(a), TimeText(b));
    MarkOrder(5, 5, 2, "-", Pad(2, 2) + ("T" + TimeText(a)), Pad(2, 2) + ("T" + TimeText(b)));
    MarkOrder(2026, 2026, 4, "-", Pad(5, 2) + ("-" + (Pad(2, 2) + ("T" + TimeText(a)))), Pad(5, 2) + ("-" + (Pad(2,
      2) + ("T" + TimeText(b)))));
  }

  lemma {:induction false} ZoneTextStart(zone: Zone)
    ensures ZoneText(zone) != "" && ZoneText(zone)[0] == (if zone.Zulu? then 'Z' else if zone.ahead then '+' else '-')
  {
    hide Pad;
  }

  lemma {:induction false} ZoneTextsDiffer(z1: Zone, z2: Zone)
    requires IsZone(z1) && IsZone(z2) && z1 != z2
    ensures ZoneText(z1) != ZoneText(z2)
  {
    hide Pad, Less;
    ZoneTextStart(z1);
    ZoneTextStart(z2);
    if z1.Offset? && z2.Offset? && z1.ahead == z2.ahead {
      hide ZoneText;
      Powers();
      PadOrder(z1.minutes, z2.minutes, 2);
      MarkOrder(z1.hours, z2.hours, 2, ":", Pad(z1.minutes, 2), Pad(z2.minutes, 2));
      ZoneTextTail(z1);
      ZoneTextTail(z2);
    }
  }

  lemma {:induction false} ZoneTextTail(zone: Zone)
    requires zone.Offset?
    ensures ZoneText(zone) != "" && ZoneText(zone)[1..] == Pad(zone.hours, 2) + (":" + Pad(zone.minutes, 2))
  {
    hide Pad;
    var sign := if zone.ahead then "+" else "-";
    assert ZoneText(zone) == sign + (Pad(zone.hours, 2) + (":" + Pad(zone.minutes, 2)));
  }

  lemma {:induction false} PadZero(width: nat)
    ensures forall i :: 0 <= i < width ==> Pad(0, width)[i] == '0'
  {
    if width > 0 { PadZero(width - 1); }
  }

  lemma {:induction false} FractionTextsDiffer(s: nat, d1: nat, z1: Zone, d2: nat, z2: Zone)
    requires IsZone(z1) && IsZone(z2) && (d1 != d2 || z1 != z2) && d1 <= d2
    ensures FractionText(At(s, d1, z1)) != FractionText(At(s, d2, z2))
  {
    hide Pad, ZoneText;
    ZoneTextStart(z1);
    ZoneTextStart(z2);
    var x, y := FractionText(At(s, d1, z1)), FractionText(At(s, d2, z2));
    if d1 == d2 {
      ZoneTextsDiffer(z1, z2);
      var k := if d1 == 0 then 0 else d1 + 1;
      assert x[k..] == ZoneText(z1) && y[k..] == ZoneText(z2);
    } else if d1 > 0 {
      PadZero(d2);
      assert x[d1 + 1] == ZoneText(z1)[0];
      assert y[d1 + 1] == Pad(0, d2)[d1];
    }
  }

  /** Seconds since the start of year 0, in the zone's own time. */
  function LocalSeconds(t: Timestamp): int
    requires IsTime(t)
  {
    DayNumber(t) * 86400 + SecondOfDay(t)
  }

  lemma {:induction false} LocalAt(s: nat, d1: nat, z1: Zone, t: nat, d2: nat, z2: Zone)
    requires s < 60 && t < 60 && IsZone(z1) && IsZone(z2)
    ensures IsTime(At(s, d1, z1)) && IsTime(At(t, d2, z2))
    ensures LocalSeconds(At(s, d1, z1)) - s == LocalSeconds(At(t, d2, z2)) - t
    ensures Instant(At(s, d1, z1)) == (LocalSeconds(At(s, d1, z1)) - ZoneSeconds(z1)) * Power10(d1)
  {
    hide DayNumber, SecondOfDay, Power10, ZoneSeconds, IsTime, MonthLength, IsZone;
    AtIsTime(s, d1, z1);
    AtIsTime(t, d2, z2);
    SecondAt(s, d1, z1);
    SecondAt(t, d2, z2);
    SameDay(At(s, d1, z1), At(t, d2, z2));
  }

  lemma {:induction false} SecondAt(s: nat, digits: nat, zone: Zone)
    ensures SecondOfDay(At(s, digits, zone)) == 36000 + s
  {
  }

  /** Comparing across precisions compares the seconds. */
  lemma {:induction false} NotAfterAt(s: nat, d1: nat, z1: Zone, t: nat, d2: nat, z2: Zone)
    requires s < 60 && t < 60 && IsZone(z1) && IsZone(z2)
    ensures IsTime(At(s, d1, z1)) && IsTime(At(t, d2, z2))
    ensures NotAfter(At(s, d1, z1), At(t, d2, z2)) <==> s - ZoneSeconds(z1) <= t - ZoneSeconds(z2)
  {
    hide Power10, ZoneSeconds, Instant, IsTime, LocalSeconds;
    LocalAt(s, d1, z1, t, d2, z2);
    LocalAt(t, d2, z2, s, d1, z1);
    var x, y := LocalSeconds(At(s, d1, z1)) - ZoneSeconds(z1), LocalSeconds(At(t, d2, z2)) - ZoneSeconds(z2);
    var p, q := Power10(d1), Power10(d2);
    Rearrange(x, p, q);
    Rearrange(y, q, p);
    Product(p, q);
    MulKeepsOrder(x, y, p * q);
  }

  lemma {:induction false} Rearrange(x: int, p: nat, q: nat)
    ensures x * p * q == x * (p * q) && p * q == q * p
  {
  }

  lemma {:induction false} Product(p: nat, q: nat)
    requires p >= 1 && q >= 1
    ensures p * q >= 1
  {
  }

  /** Between any two different forms - zones or precisions - there are times the comparison of the
    texts gets wrong. */
  lemma {:induction false} FormsMustMatch(d1: nat, z1: Zone, d2: nat, z2: Zone) returns (a: Timestamp, b: Timestamp)
    requires IsZone(z1) && IsZone(z2) && (d1 != d2 || z1 != z2)
    ensures IsTime(a) && IsTime(b) && a.digits == d1 && a.zone == z1 && b.digits == d2 && b.zone == z2
    ensures !Agrees(a, b) || !Agrees(b, a)
  {
    hide Text, Less, IsTime, NotAfter, ZoneText, IsZone, FractionText;
    if ZoneSeconds(z1) == ZoneSeconds(z2) {
      a, b := At(0, d1, z1), At(0, d2, z2);
      if d1 <= d2 { FractionTextsDiffer(0, d1, z1, d2, z2); } else { FractionTextsDiffer(0, d2, z2, d1, z1); }
      SecondsDecide(0, d1, z1, 0, d2, z2);
      NotAfterAt(0, d1, z1, 0, d2, z2);
      NotAfterAt(0, d2, z2, 0, d1, z1);
      OneWayOnly(Text(a), Text(b));
    } else if ZoneSeconds(z1) > ZoneSeconds(z2) {
      a, b := At(1, d1, z1), At(0, d2, z2);
      SecondsDecide(0, d2, z2, 1, d1, z1);
      NotAfterAt(1, d1, z1, 0, d2, z2);
      OneWayOnly(Text(b), Text(a));
    } else {
      a, b := At(0, d1, z1), At(1, d2, z2);
      SecondsDecide(0, d1, z1, 1, d2, z2);
      NotAfterAt(1, d2, z2, 0, d1, z1);
      OneWayOnly(Text(a), Text(b));
    }
  }

  predicate HasForm(t: Timestamp, digits: nat, zone: Zone) { IsTime(t) && t.digits == digits && t.zone == zone }

  /** Comparing texts of two forms is right about all times exactly when the forms are the same. */
  lemma {:induction false} FormsAgreeIff(d1: nat, z1: Zone, d2: nat, z2: Zone)
    requires IsZone(z1) && IsZone(z2)
    ensures (forall a, b :: HasForm(a, d1, z1) && HasForm(b, d2, z2) ==> Agrees(a, b) && Agrees(b, a)) <==>
            d1 == d2 && z1 == z2
  {
    hide Agrees, IsTime;
    if d1 == d2 && z1 == z2 {
      forall a, b | HasForm(a, d1, z1) && HasForm(b, d2, z2) ensures Agrees(a, b) && Agrees(b, a) {
        SameFormAgrees(a, b);
        SameFormAgrees(b, a);
      }
    } else {
      var a, b := FormsMustMatch(d1, z1, d2, z2);
      assert HasForm(a, d1, z1) && HasForm(b, d2, z2);
    }
  }

  lemma {:induction false} OneWayOnly(s: string, t: string)
    ensures s != t ==> !(LessOrEqual(s, t) && LessOrEqual(t, s))
  {
    hide Less;
    if Less(s, t) { NotBoth(t, s); }
  }
}
