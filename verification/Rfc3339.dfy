/**
 Instants as integers (nanoseconds from the start of year 0, UTC) and their RFC 3339 text
 (section 5.6), written and read the way Go's time package does with the RFC3339Nano layout.
 */
module Rfc3339 {
  import opened Basics

  const Second := 1_000_000_000
  const DaySeconds := 86_400

  // ---------------------------------------------------------------- the calendar

  predicate Leap(y: int) { y % 4 == 0 && (y % 100 != 0 || y % 400 == 0) }

  function YearLength(y: int): nat { if Leap(y) then 366 else 365 }

  function MonthLength(y: int, m: int): (n: nat)
    ensures 28 <= n <= 31
  {
    if m == 2 then (if Leap(y) then 29 else 28) else if m in {4, 6, 9, 11} then 30 else 31
  }

  /** Thirty days hath September. */
  lemma MonthLengthExact(y: int, m: int)
    requires 1 <= m <= 12
    ensures MonthLength(y, m) == if m == 2 then YearLength(y) - 337 else if m in {1, 3, 5, 7, 8, 10, 12} then 31 else 30
  {}

  /** Days from the start of year 0 to the start of year y. */
  function YearStart(y: int): int
    decreases if y < 0 then -y else y
  {
    if y == 0 then 0 else if y > 0 then YearStart(y - 1) + YearLength(y - 1) else YearStart(y + 1) - YearLength(y)
  }

  /** Leap days before year y: one every fourth year, none in the hundredth, one in the four hundredth. */
  function LeapDays(y: nat): int { (y + 3) / 4 - (y + 99) / 100 + (y + 399) / 400 }

  lemma LeapDaysNext(y: nat)
    ensures LeapDays(y + 1) == LeapDays(y) + (if Leap(y) then 1 else 0)
  {
    assert (y + 4) / 4 == (y + 3) / 4 + (if y % 4 == 0 then 1 else 0);
    assert (y + 100) / 100 == (y + 99) / 100 + (if y % 100 == 0 then 1 else 0);
    assert (y + 400) / 400 == (y + 399) / 400 + (if y % 400 == 0 then 1 else 0);
  }

  /** The Gregorian count of days. */
  lemma {:induction false} YearStartExact(y: nat)
    ensures YearStart(y) == 365 * y + LeapDays(y)
  {
    if y > 0 {
      YearStartExact(y - 1);
      LeapDaysNext(y - 1);
    }
  }

  /** Days from the start of the year to the start of month m. */
  function MonthStart(y: int, m: int): nat
    requires 1 <= m <= 13
  {
    if m == 1 then 0 else MonthStart(y, m - 1) + MonthLength(y, m - 1)
  }

  lemma YearSpan(y: int)
    ensures MonthStart(y, 13) == YearLength(y)
  {
    assert MonthStart(y, 2) == 31;
    assert MonthStart(y, 3) == 31 + MonthLength(y, 2);
    assert MonthStart(y, 5) == MonthStart(y, 3) + 61;
    assert MonthStart(y, 7) == MonthStart(y, 5) + 61;
    assert MonthStart(y, 9) == MonthStart(y, 7) + 62;
    assert MonthStart(y, 11) == MonthStart(y, 9) + 61;
  }

  /** The year a day falls in, looking from year y on. */
  function YearFrom(y: int, day: int): (r: int)
    requires 0 <= y && YearStart(y) <= day
    ensures y <= r && YearStart(r) <= day < YearStart(r + 1)
    decreases day - YearStart(y)
  {
    if day < YearStart(y + 1) then y else YearFrom(y + 1, day)
  }

  /** The year a day falls in, looking from year y back. */
  function YearBack(y: int, day: int): (r: int)
    requires y < 0 && day < YearStart(y + 1)
    ensures r <= y && YearStart(r) <= day < YearStart(r + 1)
    decreases YearStart(y + 1) - day
  {
    if YearStart(y) <= day then y else YearBack(y - 1, day)
  }

  function MonthFrom(y: int, m: int, day: nat): (r: int)
    requires 1 <= m <= 12 && MonthStart(y, m) <= day < YearLength(y)
    ensures 1 <= r <= 12 && MonthStart(y, r) <= day < MonthStart(y, r) + MonthLength(y, r)
    decreases 13 - m
  {
    YearSpan(y);
    if m == 12 || day < MonthStart(y, m + 1) then m else MonthFrom(y, m + 1, day)
  }

  datatype Civil = Civil(year: int, month: int, day: int, hour: int, minute: int, second: int, nanos: int)

  predicate Valid(c: Civil) {
    && 1 <= c.month <= 12 && 1 <= c.day <= MonthLength(c.year, c.month)
    && 0 <= c.hour < 24 && 0 <= c.minute < 60 && 0 <= c.second < 60 && 0 <= c.nanos < Second
  }

  function Instant(c: Civil): int
    requires Valid(c)
  {
    ((YearStart(c.year) + MonthStart(c.year, c.month) + c.day - 1) * DaySeconds + c.hour * 3600 + c.minute * 60 + c.second) * Second + c.nanos
  }

  function DayOf(t: int): int { t / Second / DaySeconds }

  function YearOf(t: int): (y: int)
    ensures YearStart(y) <= DayOf(t) < YearStart(y + 1)
    ensures y >= 0 <==> t >= 0
  {
    if t >= 0 then YearFrom(0, DayOf(t)) else YearBack(-1, DayOf(t))
  }

  /** The calendar reading of an instant. */
  function CivilOf(t: int): (c: Civil)
    ensures Valid(c) && c.year == YearOf(t)
  {
    var day, sec := DayOf(t), t / Second % DaySeconds;
    var y := YearOf(t);
    var d := day - YearStart(y);
    var m := MonthFrom(y, 1, d);
    Civil(y, m, d - MonthStart(y, m) + 1, sec / 3600, sec / 60 % 60, sec % 60, t % Second)
  }

  lemma SecondsSplit(sec: nat)
    requires sec < DaySeconds
    ensures sec / 3600 * 3600 + sec / 60 % 60 * 60 + sec % 60 == sec
  {}

  lemma InstantOfCivil(t: int)
    ensures Instant(CivilOf(t)) == t
  {
    SecondsSplit(t / Second % DaySeconds);
    var day, sec := DayOf(t), t / Second % DaySeconds;
    assert day * DaySeconds + sec == t / Second;
    assert t / Second * Second + t % Second == t;
  }

  // ---------------------------------------------------------------- decimal fields

  predicate IsDigit(c: char) { '0' <= c <= '9' }

  function DigitChar(d: int): char
    requires 0 <= d < 10
  {
    ('0' as int + d) as char
  }

  function DigitOf(c: char): (d: int)
    requires IsDigit(c)
    ensures 0 <= d < 10
  {
    c as int - '0' as int
  }

  /** v in exactly w digits. */
  function Pad(v: nat, w: nat): (s: string)
    ensures |s| == w && forall c | c in s :: IsDigit(c)
  {
    if w == 0 then "" else Pad(v / 10, w - 1) + [DigitChar(v % 10)]
  }

  function Number(s: string): nat
    requires forall c | c in s :: IsDigit(c)
  {
    if s == "" then 0 else Number(s[..|s| - 1]) * 10 + DigitOf(s[|s| - 1])
  }

  function Pow10(w: nat): (p: nat)
    ensures p > 0
  {
    if w == 0 then 1 else 10 * Pow10(w - 1)
  }

  lemma {:induction false} NumberOfPad(v: nat, w: nat)
    requires v < Pow10(w)
    ensures Number(Pad(v, w)) == v
  {
    if w > 0 {
      NumberOfPad(v / 10, w - 1);
      assert Pad(v, w)[..w - 1] == Pad(v / 10, w - 1);
    }
  }

  /** A field of digits whose value must lie in [lo, hi]. */
  function Field(s: string, lo: int, hi: int): Option<int> {
    if s == "" || exists c | c in s :: !IsDigit(c) then None
    else
      var n := Number(s);
      if lo <= n <= hi then Some(n) else None
  }

  lemma FieldOfPad(v: nat, w: nat, lo: int, hi: int)
    requires 0 < w && v < Pow10(w)
    ensures Field(Pad(v, w), lo, hi) == if lo <= v <= hi then Some(v) else None
  {
    NumberOfPad(v, w);
  }

  function TrimZeros(s: string): (r: string)
    ensures r <= s && (r == "" || r[|r| - 1] != '0')
  {
    if s != "" && s[|s| - 1] == '0' then TrimZeros(s[..|s| - 1]) else s
  }

  /** The first w digits of a fraction, zeros standing for those not written. */
  function Fill(s: string, w: nat): string
    decreases w - |s|
  {
    if |s| >= w then s[..w] else Fill(s + "0", w)
  }

  lemma {:induction false} FillTrimmed(s: string, w: nat)
    requires |s| <= w
    ensures Fill(TrimZeros(s), w) == Fill(s, w)
  {
    if s != "" && s[|s| - 1] == '0' {
      FillTrimmed(s[..|s| - 1], w);
      assert s[..|s| - 1] + "0" == s;
    }
  }

  lemma {:induction false} AllZeros(s: string)
    requires (forall c | c in s :: IsDigit(c)) && TrimZeros(s) == ""
    ensures Number(s) == 0
  {
    if s != "" { AllZeros(s[..|s| - 1]); }
  }

  lemma {:induction false} FillDigits(s: string, w: nat)
    requires forall c | c in s :: IsDigit(c)
    ensures forall c | c in Fill(s, w) :: IsDigit(c)
    decreases w - |s|
  {
    if |s| < w { FillDigits(s + "0", w); }
  }

  /** Nanoseconds: nine digits are read, further ones dropped. */
  function FractionValue(s: string): nat
    requires forall c | c in s :: IsDigit(c)
  {
    FillDigits(s, 9);
    Number(Fill(s, 9))
  }

  /** A trimmed fraction is not empty, has no trailing zero and reads back. */
  lemma FractionRoundTrip(v: nat)
    requires v < Second
    ensures FractionValue(TrimZeros(Pad(v, 9))) == v
    ensures v > 0 ==> TrimZeros(Pad(v, 9)) != ""
  {
    assert Pow10(4) == 10_000 && Pow10(9) == Second;
    NumberOfPad(v, 9);
    FillTrimmed(Pad(v, 9), 9);
    assert Pad(v, 9)[..9] == Pad(v, 9);
    if TrimZeros(Pad(v, 9)) == "" { AllZeros(Pad(v, 9)); }
  }

  /** How many digits a text starts with. */
  function Span(s: string): (n: nat)
    ensures n <= |s| && (forall i | 0 <= i < n :: IsDigit(s[i])) && (n < |s| ==> !IsDigit(s[n]))
  {
    if s == "" || !IsDigit(s[0]) then 0 else 1 + Span(s[1..])
  }

  // ---------------------------------------------------------------- writing

  /** An ordinary decimal numeral, as long as it needs to be. */
  function Decimal(n: nat): (s: string)
    ensures forall c | c in s :: IsDigit(c)
    ensures |s| >= 1 && (n >= 10 ==> |s| >= 2) && (n >= 100 ==> |s| >= 3) && (n >= 1000 ==> |s| >= 4) && (n >= 10000 ==> |s| >= 5)
  {
    if n < 10 then [DigitChar(n)] else Decimal(n / 10) + [DigitChar(n % 10)]
  }

  function Fraction(nanos: nat): string { if nanos == 0 then "" else "." + TrimZeros(Pad(nanos, 9)) }

  function Fields(y: string, mo: string, d: string, h: string, mi: string, sec: string): string {
    y + "-" + mo + "-" + d + "T" + h + ":" + mi + ":" + sec
  }

  /** At least four digits for the year. */
  function YearText(y: int): string {
    if y < 0 then "-" + NatYear(-y) else NatYear(y)
  }

  function NatYear(y: nat): string { if y <= 9999 then Pad(y, 4) else Decimal(y) }

  /** Date and time to the second. */
  function DateText(c: Civil): string
    requires Valid(c)
  {
    Fields(YearText(c.year), Pad(c.month, 2), Pad(c.day, 2), Pad(c.hour, 2), Pad(c.minute, 2), Pad(c.second, 2))
  }

  function Written(c: Civil): string
    requires Valid(c)
  {
    DateText(c) + (Fraction(c.nanos) + "Z")
  }

  function Format(t: int): string { Written(CivilOf(t)) }

  // ---------------------------------------------------------------- reading

  /** The zone: "Z", or an offset in seconds. */
  function ParseZone(s: string): Option<int> {
    if s == "Z" then Some(0)
    else if |s| == 6 && (s[0] == '+' || s[0] == '-') && s[3] == ':' && Field(s[1..3], 0, 23).Some? && Field(s[4..6], 0, 59).Some? then
      var offset := Field(s[1..3], 0, 23).value * 3600 + Field(s[4..6], 0, 59).value * 60;
      Some(if s[0] == '-' then -offset else offset)
    else None
  }

  /** What follows the seconds: an optional fraction, then the zone. Gives nanoseconds and offset. */
  function ParseSuffix(s: string): Option<(int, int)> {
    if |s| >= 2 && s[0] == '.' && IsDigit(s[1]) then
      var n := Span(s[1..]);
      var zone := ParseZone(s[1 + n..]);
      if zone.None? then None else Some((FractionValue(s[1..][..n]), zone.value))
    else
      var zone := ParseZone(s);
      if zone.None? then None else Some((0, zone.value))
  }

  function ParseDate(s: string): Option<Civil>
    requires |s| == 19
  {
    var year, month := Field(s[0..4], 0, 9999), Field(s[5..7], 1, 12);
    if year.None? || month.None? then None
    else
      var day := Field(s[8..10], 1, MonthLength(year.value, month.value));
      var hour, minute, second := Field(s[11..13], 0, 23), Field(s[14..16], 0, 59), Field(s[17..19], 0, 59);
      if day.None? || hour.None? || minute.None? || second.None? then None
      else if s[4] != '-' || s[7] != '-' || s[10] != 'T' || s[13] != ':' || s[16] != ':' then None
      else Some(Civil(year.value, month.value, day.value, hour.value, minute.value, second.value, 0))
  }

  function Parse(s: string): Option<int> {
    if |s| < 19 then None
    else
      var date, suffix := ParseDate(s[..19]), ParseSuffix(s[19..]);
      if date.None? || suffix.None? then None
      else Some(Instant(date.value) + suffix.value.0 - suffix.value.1 * Second)
  }

  // ---------------------------------------------------------------- round trip

  lemma SpanOf(d: string, rest: string)
    requires (forall c | c in d :: IsDigit(c)) && rest != "" && !IsDigit(rest[0])
    ensures Span(d + rest) == |d|
  {
    var s := d + rest;
    assert forall i | 0 <= i < |d| :: IsDigit(s[i]) by { forall i | 0 <= i < |d| ensures IsDigit(s[i]) { assert s[i] in d; } }
    assert s[|d|] == rest[0];
  }

  lemma SuffixSlices(d: string, zone: string)
    ensures var s := "." + d + zone; s[1..] == d + zone && s[1..][..|d|] == d && s[1 + |d|..] == zone
  {
    var s := "." + d + zone;
    assert s[1..] == d + zone;
  }

  lemma ParseSuffixOfDigits(d: string, zone: string)
    requires d != "" && (forall c | c in d :: IsDigit(c)) && zone != "" && !IsDigit(zone[0])
    ensures ParseSuffix("." + d + zone) == if ParseZone(zone).None? then None else Some((FractionValue(d), ParseZone(zone).value))
  {
    SuffixSlices(d, zone);
    SpanOf(d, zone);
    assert d[0] in d;
  }

  /** It cannot be taken for part of a fraction. */
  predicate ZoneText(zone: string) { zone != "" && !IsDigit(zone[0]) && zone[0] != '.' }

  lemma ParseSuffixOfFraction(nanos: nat, zone: string)
    requires nanos < Second && ZoneText(zone)
    ensures ParseSuffix(Fraction(nanos) + zone) == if ParseZone(zone).None? then None else Some((nanos, ParseZone(zone).value))
  {
    if nanos > 0 {
      FractionRoundTrip(nanos);
      ParseSuffixOfDigits(TrimZeros(Pad(nanos, 9)), zone);
    } else {
      assert Fraction(nanos) + zone == zone;
    }
  }

  /** This text is a zone, so many seconds from UTC. */
  predicate IsZone(zone: string, offset: int) { ZoneText(zone) && ParseZone(zone) == Some(offset) }

  /** An offset from UTC: a sign, two digits of hours, a colon, two digits of minutes. */
  function Offset(east: bool, h: nat, m: nat): string { (if east then "+" else "-") + Pad(h, 2) + ":" + Pad(m, 2) }

  function OffsetSeconds(east: bool, h: nat, m: nat): int { if east then h * 3600 + m * 60 else -(h * 3600 + m * 60) }

  lemma OffsetSlices(sign: string, h: string, m: string)
    requires |sign| == 1 && |h| == 2 && |m| == 2
    ensures var s := sign + h + ":" + m; |s| == 6 && s[0] == sign[0] && s[1..3] == h && s[3] == ':' && s[4..6] == m
  {}

  lemma ParseZoneOfOffset(east: bool, h: nat, m: nat)
    requires h < 24 && m < 60
    ensures IsZone(Offset(east, h, m), OffsetSeconds(east, h, m))
  {
    OffsetSlices(if east then "+" else "-", Pad(h, 2), Pad(m, 2));
    assert Pow10(2) == 100;
    FieldOfPad(h, 2, 0, 23);
    FieldOfPad(m, 2, 0, 59);
  }

  /** Nothing but "Z" and such an offset is a zone. */
  lemma ZonesOnly(s: string)
    ensures ParseZone(s).Some? ==>
            s == "Z" || (|s| == 6 && s[0] in {'+', '-'} && s[3] == ':' && Field(s[1..3], 0, 23).Some? && Field(s[4..6], 0, 59).Some?)
  {}

  lemma FieldSlices(y: string, mo: string, d: string, h: string, mi: string, sec: string)
    requires |y| == 4 && |mo| == |d| == |h| == |mi| == |sec| == 2
    ensures var s := Fields(y, mo, d, h, mi, sec);
            && |s| == 19 && s[0..4] == y && s[5..7] == mo && s[8..10] == d && s[11..13] == h && s[14..16] == mi && s[17..19] == sec
            && s[4] == '-' && s[7] == '-' && s[10] == 'T' && s[13] == ':' && s[16] == ':'
  {}

  lemma ParseDateOfFields(c: Civil)
    requires Valid(c) && 0 <= c.year <= 9999
    ensures var s := DateText(c);
            |s| == 19 && ParseDate(s) == Some(c.(nanos := 0))
  {
    FieldSlices(YearText(c.year), Pad(c.month, 2), Pad(c.day, 2), Pad(c.hour, 2), Pad(c.minute, 2), Pad(c.second, 2));
    assert Pow10(2) == 100 && Pow10(4) == 10000;
    FieldOfPad(c.year, 4, 0, 9999);
    FieldOfPad(c.month, 2, 1, 12);
    FieldOfPad(c.day, 2, 1, MonthLength(c.year, c.month));
    FieldOfPad(c.hour, 2, 0, 23);
    FieldOfPad(c.minute, 2, 0, 59);
    FieldOfPad(c.second, 2, 0, 59);
  }

  lemma WithoutNanos(c: Civil)
    requires Valid(c)
    ensures Instant(c.(nanos := 0)) + c.nanos == Instant(c)
  {}

  lemma ParseParts(c: Civil, date: string, rest: string, offset: int)
    requires Valid(c) && |date| == 19 && ParseDate(date) == Some(c.(nanos := 0)) && ParseSuffix(rest) == Some((c.nanos, offset))
    ensures Parse(date + rest) == Some(Instant(c) - offset * Second)
  {
    assert (date + rest)[..19] == date && (date + rest)[19..] == rest;
    WithoutNanos(c);
  }

  /** This time, written with this zone, reads back as itself less the zone's offset. */
  predicate ReadsAs(c: Civil, zone: string, offset: int)
    requires Valid(c) && 0 <= c.year <= 9999
  {
    Parse(DateText(c) + (Fraction(c.nanos) + zone)) == Some(Instant(c) - offset * Second)
  }

  /** A time written with any zone reads back as its own reading less the zone's offset. */
  lemma ParseText(c: Civil, zone: string, offset: int)
    requires Valid(c) && 0 <= c.year <= 9999 && IsZone(zone, offset)
    ensures ReadsAs(c, zone, offset)
  {
    ParseDateOfFields(c);
    ParseSuffixOfFraction(c.nanos, zone);
    ParseParts(c, DateText(c), Fraction(c.nanos) + zone, offset);
  }

  lemma ParseWithOffset(c: Civil, east: bool, h: nat, m: nat)
    requires Valid(c) && 0 <= c.year <= 9999 && h < 24 && m < 60
    ensures ReadsAs(c, Offset(east, h, m), OffsetSeconds(east, h, m))
  {
    ParseZoneOfOffset(east, h, m);
    ParseText(c, Offset(east, h, m), OffsetSeconds(east, h, m));
  }

  lemma ParseWritten(c: Civil)
    requires Valid(c) && 0 <= c.year <= 9999
    ensures Parse(Written(c)) == Some(Instant(c))
  {
    ParseText(c, "Z", 0);
  }

  lemma ParseOtherYear(t: int)
    requires !(0 <= YearOf(t) <= 9999)
    ensures Parse(Format(t)).None?
  {
    var c, s := CivilOf(t), Format(t);
    var y := YearText(c.year);
    assert y <= s;
    if c.year > 9999 {
      assert s[4] == y[4] && y[4] in y;
    } else {
      assert s[0] == y[0] == '-';
      assert |s| >= 19 ==> s[..19][0..4][0] == '-' && '-' in s[..19][0..4];
    }
  }

  /** Reading back what was written gives the instant, exactly in the four-digit years. */
  lemma ParseFormat(t: int)
    ensures Parse(Format(t)) == if 0 <= YearOf(t) <= 9999 then Some(t) else None
  {
    if 0 <= YearOf(t) <= 9999 {
      ParseWritten(CivilOf(t));
      InstantOfCivil(t);
    } else { ParseOtherYear(t); }
  }

  /** Printable ASCII, and never the bar. */
  predicate Plain(s: string) { forall c | c in s :: ' ' <= c <= 'z' }

  lemma FractionPlain(nanos: nat)
    ensures Plain(Fraction(nanos) + "Z")
  {
    var t, p := TrimZeros(Pad(nanos, 9)), Pad(nanos, 9);
    forall c | c in t ensures IsDigit(c) {
      var i :| 0 <= i < |t| && t[i] == c;
      assert p[i] == c;
    }
  }

  lemma WrittenIsPlain(c: Civil)
    requires Valid(c)
    ensures Plain(Written(c))
  {
    var y, mo, d, h, mi, sec := YearText(c.year), Pad(c.month, 2), Pad(c.day, 2), Pad(c.hour, 2), Pad(c.minute, 2), Pad(c.second, 2);
    var f := Fraction(c.nanos) + "Z";
    FractionPlain(c.nanos);
    FieldsPlain(y, mo, d, h, mi, sec);
    assert Written(c) == Fields(y, mo, d, h, mi, sec) + f;
  }

  lemma FieldsPlain(y: string, mo: string, d: string, h: string, mi: string, sec: string)
    requires Plain(y) && Plain(mo) && Plain(d) && Plain(h) && Plain(mi) && Plain(sec)
    ensures Plain(Fields(y, mo, d, h, mi, sec))
  {}

  lemma FormatIsPlain(t: int)
    ensures Plain(Format(t))
  {
    WrittenIsPlain(CivilOf(t));
  }
}
