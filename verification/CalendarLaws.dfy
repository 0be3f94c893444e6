/** The calendar and the texts of `Timestamps`, in closed form: section 5.6 of RFC 3339. */
module CalendarLaws {
  import opened Json
  import opened JsonRoundTrip
  import opened Timestamps

  // ---------- days ----------

  /** How many leap years there are before this one: years divisible by 4, except those divisible by
    100 and not by 400. */
  function LeapYears(year: nat): int { (year + 3) / 4 - (year + 99) / 100 + (year + 399) / 400 }

  lemma {:induction false} DaysBeforeYearIs(year: nat)
    ensures DaysBeforeYear(year) == 365 * year + LeapYears(year)
  {
    hide YearLength, IsLeap, LeapYears;
    if year == 0 {
      NoLeapYears();
    } else {
      DaysBeforeYearIs(year - 1);
      YearLengthIs(year - 1);
      OneYearMore(year - 1);
    }
  }

  lemma {:induction false} NoLeapYears()
    ensures LeapYears(0) == 0
  {
  }

  lemma {:induction false} OneYearMore(y: nat)
    ensures LeapYears(y + 1) == LeapYears(y) + if IsLeap(y) then 1 else 0
  {
    hide IsLeap;
    Next4(y);
    Next100(y);
    Next400(y);
    LeapIs(y);
  }

  lemma {:induction false} Next4(y: nat)
    ensures (y + 1 + 3) / 4 == (y + 3) / 4 + if y % 4 == 0 then 1 else 0
  {
    var q, r := y / 4, y % 4;
    assert y == 4 * q + r && 0 <= r < 4;
  }

  lemma {:induction false} Next100(y: nat)
    ensures (y + 1 + 99) / 100 == (y + 99) / 100 + if y % 100 == 0 then 1 else 0
  {
    var q, r := y / 100, y % 100;
    assert y == 100 * q + r && 0 <= r < 100;
  }

  lemma {:induction false} Next400(y: nat)
    ensures (y + 1 + 399) / 400 == (y + 399) / 400 + if y % 400 == 0 then 1 else 0
  {
    var q, r := y / 400, y % 400;
    assert y == 400 * q + r && 0 <= r < 400;
  }

  lemma {:induction false} YearLengthIs(year: nat)
    ensures YearLength(year) == 365 + if IsLeap(year) then 1 else 0
  {
    hide DaysBeforeMonth, IsLeap;
    DaysBeforeMonthIs(year);
    NextMonth(year, 12);
  }

  lemma {:induction false} LeapIs(year: nat)
    ensures (if IsLeap(year) then 1 else 0) ==
            (if year % 4 == 0 then 1 else 0) - (if year % 100 == 0 then 1 else 0) + if year % 400 == 0 then 1 else 0
  {
    if year % 100 == 0 { Multiple100(year, year / 100); }
    if year % 400 == 0 { Multiple400(year, year / 400); }
  }

  lemma {:induction false} Times4(k: int)
    ensures 4 * k % 4 == 0
  {
  }

  lemma {:induction false} Times100(k: int)
    ensures 100 * k % 100 == 0
  {
  }

  lemma {:induction false} Multiple100(y: nat, q: nat)
    requires y == 100 * q
    ensures y % 4 == 0
  {
    Times4(25 * q);
    assert 4 * (25 * q) == y;
  }

  lemma {:induction false} Multiple400(y: nat, q: nat)
    requires y == 400 * q
    ensures y % 100 == 0
  {
    Times100(4 * q);
    assert 100 * (4 * q) == y;
  }

  lemma {:induction false} NextMonth(year: nat, month: nat)
    requires 1 <= month
    ensures DaysBeforeMonth(year, month + 1) == DaysBeforeMonth(year, month) + MonthLength(year, month)
  {
  }

  /** The days of a common year before each month. */
  const BEFORE_MONTH := [0, 31, 59, 90, 120, 151, 181, 212, 243, 273, 304, 334]

  lemma {:induction false} DaysBeforeMonthIs(year: nat)
    ensures forall m :: 1 <= m <= 12 ==>
              DaysBeforeMonth(year, m) == BEFORE_MONTH[m - 1] + if m > 2 && IsLeap(year) then 1 else 0
  {
    hide DaysBeforeMonth, IsLeap;
    assert DaysBeforeMonth(year, 1) == 0 by { FirstMonth(year); }
    forall m: nat | 1 <= m <= 12
      ensures DaysBeforeMonth(year, m + 1) == DaysBeforeMonth(year, m) + MonthLength(year, m)
    {
      NextMonth(year, m);
    }
    assert DaysBeforeMonth(year, 1 + 1) == 31 && DaysBeforeMonth(year, 2 + 1) == 59 + if IsLeap(year) then 1 else 0;
    var three := DaysBeforeMonth(year, 3);
    assert DaysBeforeMonth(year, 3 + 1) == three + 31 && DaysBeforeMonth(year, 4 + 1) == three + 61;
    assert DaysBeforeMonth(year, 5 + 1) == three + 92 && DaysBeforeMonth(year, 6 + 1) == three + 122;
    assert DaysBeforeMonth(year, 7 + 1) == three + 153 && DaysBeforeMonth(year, 8 + 1) == three + 184;
    assert DaysBeforeMonth(year, 9 + 1) == three + 214 && DaysBeforeMonth(year, 10 + 1) == three + 245;
    assert DaysBeforeMonth(year, 11 + 1) == three + 275;
  }

  lemma {:induction false} FirstMonth(year: nat)
    ensures DaysBeforeMonth(year, 1) == 0
  {
  }

  /** The day in the calendar, and the time of day in UTC. */
  lemma {:induction false} InstantIs(t: Timestamp)
    requires IsTime(t)
    ensures var y, leap := t.year, t.year % 4 == 0 && (t.year % 100 == 0 ==> t.year % 400 == 0);
            var day :=
              365 * y + (y + 3) / 4 - (y + 99) / 100 + (y + 399) / 400
              + BEFORE_MONTH[t.month - 1] + (if t.month > 2 && leap then 1 else 0) + t.day - 1;
            var (hour, minute) := match t.zone
              case Zulu => (t.hour, t.minute)
              case Offset(true, h, m) => (t.hour - h, t.minute - m)
              case Offset(false, h, m) => (t.hour + h, t.minute + m);
            Instant(t) == (((day * 24 + hour) * 60 + minute) * 60 + t.second) * Power10(t.digits) + t.fraction
  {
    hide DaysBeforeYear, DaysBeforeMonth, MonthLength, Power10, IsLeap;
    DaysBeforeYearIs(t.year);
    DaysBeforeMonthIs(t.year);
    LeapYearsAre(t.year);
    SecondsIs(t);
  }

  lemma {:induction false} LeapYearsAre(year: nat)
    ensures IsLeap(year) <==> year % 4 == 0 && (year % 100 == 0 ==> year % 400 == 0)
  {
  }

  lemma {:induction false} SecondsIs(t: Timestamp)
    requires IsTime(t)
    ensures var (hour, minute) := match t.zone
              case Zulu => (t.hour, t.minute)
              case Offset(true, h, m) => (t.hour - h, t.minute - m)
              case Offset(false, h, m) => (t.hour + h, t.minute + m);
            Instant(t) == (((DayNumber(t) * 24 + hour) * 60 + minute) * 60 + t.second) * Power10(t.digits) + t.fraction
  {
    hide DayNumber, Power10, IsTime;
  }

  /** Which dates and times there are. */
  lemma {:induction false} IsTimeIff(t: Timestamp)
    ensures IsTime(t) <==>
            && t.year <= 9999 && 1 <= t.month <= 12 && 1 <= t.day
            && t.day <= [31, if t.year % 4 == 0 && (t.year % 100 == 0 ==> t.year % 400 == 0) then 29 else 28,
                         31, 30, 31, 30, 31, 31, 30, 31, 30, 31][t.month - 1]
            && t.hour < 24 && t.minute < 60 && t.second < 60 && t.fraction < Power10(t.digits)
            && (t.zone != Zulu ==> t.zone.hours < 24 && t.zone.minutes < 60)
  {
    hide Power10;
  }

  // ---------- texts ----------

  /** The text is decimal digits, and these say the number. */
  ghost predicate Reads(s: string, n: nat) { AllDigits(s) && DigitsValue(s) == n }

  lemma {:induction false} PadReads(n: nat, width: nat)
    requires n < Power10(width)
    ensures Reads(Pad(n, width), n)
  {
    if width > 0 {
      PadReads(n / 10, width - 1);
      ReadsMore(Pad(n / 10, width - 1), n / 10, n % 10);
      hide Reads;
      assert n / 10 * 10 + n % 10 == n;
    }
  }

  lemma {:induction false} ReadsMore(s: string, n: nat, d: nat)
    requires Reads(s, n) && d < 10
    ensures Reads(s + [Digit(d)], n * 10 + d)
  {
    var t := s + [Digit(d)];
    assert t[..|t| - 1] == s;
  }

  /** "Z", or a sign, hours and minutes. */
  ghost predicate ZoneReads(s: string, zone: Zone) {
    match zone
    case Zulu => s == "Z"
    case Offset(ahead, h, m) =>
      && |s| == 6 && s[0] == (if ahead then '+' else '-') && Reads(s[1..3], h) && s[3] == ':' && Reads(s[4..], m)
  }

  /** `full-date "T" full-time`, and every field where the grammar has it. */
  lemma {:induction false} TextReads(t: Timestamp)
    requires IsTime(t)
    ensures var s := Text(t);
            && |s| >= 20 && Reads(s[..4], t.year) && s[4] == '-' && Reads(s[5..7], t.month) && s[7] == '-'
            && Reads(s[8..10], t.day) && s[10] == 'T' && Reads(s[11..13], t.hour) && s[13] == ':'
            && Reads(s[14..16], t.minute) && s[16] == ':' && Reads(s[17..19], t.second)
            && (t.digits == 0 ==> ZoneReads(s[19..], t.zone))
            && (t.digits > 0 ==>
                  && |s| >= 20 + t.digits && s[19] == '.' && Reads(s[20..20 + t.digits], t.fraction)
                  && ZoneReads(s[20 + t.digits..], t.zone))
  {
    hide Pad, Reads, FractionText, ZoneReads;
    Powers();
    PadReads(t.year, 4);
    PadReads(t.month, 2);
    PadReads(t.day, 2);
    PadReads(t.hour, 2);
    PadReads(t.minute, 2);
    PadReads(t.second, 2);
    Layout(t);
    FractionReads(t);
    var s := Text(t);
    assert t.digits > 0 ==> s[19..][0] == s[19] && s[19..][1..1 + t.digits] == s[20..20 + t.digits];
    assert t.digits > 0 ==> s[19..][1 + t.digits..] == s[20 + t.digits..];
  }

  lemma {:induction false} Layout(t: Timestamp)
    ensures var s := Text(t);
            && |s| >= 19 && s[..4] == Pad(t.year, 4) && s[4] == '-' && s[5..7] == Pad(t.month, 2) && s[7] == '-'
            && s[8..10] == Pad(t.day, 2) && s[10] == 'T' && s[11..13] == Pad(t.hour, 2) && s[13] == ':'
            && s[14..16] == Pad(t.minute, 2) && s[16] == ':' && s[17..19] == Pad(t.second, 2)
            && s[19..] == FractionText(t)
  {
    hide Pad, FractionText;
    var s, f := Text(t), FractionText(t);
    var minute := Pad(t.minute, 2) + (":" + (Pad(t.second, 2) + f));
    var time := Pad(t.hour, 2) + (":" + minute);
    var day := Pad(t.day, 2) + ("T" + time);
    var month := Pad(t.month, 2) + ("-" + day);
    assert s[0..] == Pad(t.year, 4) + ("-" + month);
    hide Text, TimeText;
    MarkAt(s, 0, Pad(t.year, 4), "-", month);
    MarkAt(s, 5, Pad(t.month, 2), "-", day);
    MarkAt(s, 8, Pad(t.day, 2), "T", time);
    MarkAt(s, 11, Pad(t.hour, 2), ":", minute);
    MarkAt(s, 14, Pad(t.minute, 2), ":", Pad(t.second, 2) + f);
    assert s[17..][..2] == Pad(t.second, 2) && s[17..][2..] == f;
  }

  /** A field and the mark behind it. */
  lemma {:induction false} MarkAt(s: string, i: nat, field: string, mark: string, rest: string)
    requires i <= |s| && s[i..] == field + (mark + rest) && |mark| == 1
    ensures var j := i + |field|;
            j < |s| && s[i..j] == field && s[j] == mark[0] && s[j + 1..] == rest
  {
    var j := i + |field|;
    var tail := s[i..];
    assert tail[..|field|] == field && tail[|field|] == mark[0] && tail[|field| + 1..] == rest;
    assert s[i..j] == tail[..|field|] && s[j] == tail[|field|] && s[j + 1..] == tail[|field| + 1..];
  }

  lemma {:induction false} FractionReads(t: Timestamp)
    requires IsTime(t)
    ensures var f := FractionText(t);
            && |f| >= 1 && (t.digits == 0 ==> ZoneReads(f, t.zone))
            && (t.digits > 0 ==>
                  && |f| >= 1 + t.digits && f[0] == '.' && Reads(f[1..1 + t.digits], t.fraction)
                  && ZoneReads(f[1 + t.digits..], t.zone))
  {
    hide Pad, Reads, ZoneText, ZoneReads;
    PadReads(t.fraction, t.digits);
    ZoneTextReads(t.zone);
    ZoneTextStart(t.zone);
    var f := FractionText(t);
    assert t.digits > 0 ==> f[1..1 + t.digits] == Pad(t.fraction, t.digits) && f[1 + t.digits..] == ZoneText(t.zone);
  }

  lemma {:induction false} ZoneTextReads(zone: Zone)
    requires IsZone(zone)
    ensures ZoneReads(ZoneText(zone), zone)
  {
    hide Pad, Reads;
    if zone.Offset? {
      Powers();
      PadReads(zone.hours, 2);
      PadReads(zone.minutes, 2);
      var s := ZoneText(zone);
      assert s[1..3] == Pad(zone.hours, 2) && s[4..] == Pad(zone.minutes, 2);
    }
  }
}
