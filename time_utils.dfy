/// TimeUtils: seconds to milliseconds, the tracker's timestamp codec
/// (yyyy-MM-dd'T'HH:mm:ss.SSSZ, zone as a numeric offset +HHMM / -HHMM as in
/// section 5.1 of RFC 822) and the release-date reformatting dd/MMM/yy -> yyyy-MM-dd.
module TimeUtils {
  import opened Base
  import opened Strings

  // ---------------------------------------------------------------- durations

  /** parseSeconds: null is 0, otherwise the seconds widened to a long and times 1000. */
  function ParseSeconds(seconds: Option<int>): (ms: int)
    ensures ms % 1000 == 0 && ms / 1000 == seconds.GetOr(0)
  {
    match seconds
    case None => 0
    case Some(s) => s * 1000
  }

  const IntMin: int := -0x8000_0000
  const IntMax: int := 0x7FFF_FFFF
  const LongMin: int := -0x8000_0000_0000_0000
  const LongMax: int := 0x7FFF_FFFF_FFFF_FFFF

  /** Any java.lang.Integer times 1000 fits a long, so the multiplication never wraps. */
  lemma ParseSecondsFitsLong(seconds: Option<int>)
    requires seconds.Some? ==> IntMin <= seconds.value <= IntMax
    ensures LongMin < ParseSeconds(seconds) < LongMax
  {
  }

  // ---------------------------------------------------------------- digits

  function DigitChar(d: nat): char
    requires d < 10
  {
    ('0' as int + d) as char
  }

  /** Exactly width decimal digits of n mod 10^width. */
  function FixedDigits(n: nat, width: nat): (s: string)
    ensures |s| == width && AllDigits(s)
  {
    if width == 0 then "" else FixedDigits(n / 10, width - 1) + [DigitChar(n % 10)]
  }

  lemma {:induction false} FixedDigitsValue(n: nat, width: nat)
    ensures DigitsValue(FixedDigits(n, width)) == n % Pow10(width)
  {
    if width > 0 {
      var s := FixedDigits(n, width);
      assert s[..|s| - 1] == FixedDigits(n / 10, width - 1);
      FixedDigitsValue(n / 10, width - 1);
      ModPow10Step(n, width);
    }
  }

  lemma ModPow10Step(n: nat, width: nat)
    requires width > 0
    ensures n % Pow10(width) == 10 * ((n / 10) % Pow10(width - 1)) + n % 10
  {
    var p := Pow10(width - 1);
    var q := (n / 10) / p;
    var r := (n / 10) % p;
    assert n / 10 == q * p + r;
    assert n == (q * p + r) * 10 + n % 10;
    assert n == q * (10 * p) + (10 * r + n % 10);
    assert 0 <= 10 * r + n % 10 < 10 * p;
    DivModUnique(n, 10 * p, q, 10 * r + n % 10);
  }

  lemma MulNonneg(a: int, b: int)
    requires a >= 0 && b >= 0
    ensures a * b >= 0
  {
  }

  lemma DivModUnique(n: int, d: int, q: int, r: int)
    requires d > 0 && 0 <= r < d && n == q * d + r
    ensures n % d == r && n / d == q
  {
    var q0, r0 := n / d, n % d;
    assert (q0 - q - 1) * d + d == r - r0;
    assert (q - q0 - 1) * d + d == r0 - r;
    if q0 > q {
      MulNonneg(q0 - q - 1, d);
      assert false;
    } else if q0 < q {
      MulNonneg(q - q0 - 1, d);
      assert false;
    }
  }

  /** Number of decimal digits of n (at least one). */
  function NumDigits(n: nat): (k: nat)
    ensures k >= 1 && n < Pow10(k)
  {
    if n < 10 then 1 else 1 + NumDigits(n / 10)
  }

  /** SimpleDateFormat's numeric field: at least width digits, more when n needs them. */
  function Pad(n: nat, width: nat): (s: string)
    ensures |s| >= width && AllDigits(s)
  {
    FixedDigits(n, if width < NumDigits(n) then NumDigits(n) else width)
  }

  lemma PadValue(n: nat, width: nat)
    requires width >= 1 && n < Pow10(width)
    ensures Pad(n, width) == FixedDigits(n, width) && |Pad(n, width)| == width
    ensures DigitsValue(Pad(n, width)) == n
  {
    NumDigitsMinimal(n, width);
    FixedDigitsValue(n, width);
  }

  lemma {:induction false} NumDigitsMinimal(n: nat, width: nat)
    requires width >= 1 && n < Pow10(width)
    ensures NumDigits(n) <= width
  {
    if n >= 10 {
      assert width >= 1;
      assert Pow10(width) == 10 * Pow10(width - 1);
      assert n / 10 < Pow10(width - 1);
      NumDigitsMinimal(n / 10, width - 1);
    }
  }

  // ---------------------------------------------------------------- calendar

  predicate IsLeap(y: int)
  {
    y % 4 == 0 && (y % 100 != 0 || y % 400 == 0)
  }

  function DaysInMonth(y: int, m: int): int
    requires 1 <= m <= 12
  {
    if m == 2 then (if IsLeap(y) then 29 else 28)
    else if m == 4 || m == 6 || m == 9 || m == 11 then 30
    else 31
  }

  /** Days from 0001-01-01 to y-01-01 in the proleptic Gregorian calendar. */
  function DaysBeforeYear(y: int): int
  {
    (y - 1) * 365 + (y - 1) / 4 - (y - 1) / 100 + (y - 1) / 400
  }

  lemma YearLength(y: int)
    ensures DaysBeforeYear(y + 1) - DaysBeforeYear(y) == if IsLeap(y) then 366 else 365
  {
    FloorStep(y - 1, 4);
    FloorStep(y - 1, 100);
    FloorStep(y - 1, 400);
  }

  lemma FloorStep(x: int, d: int)
    requires d > 0
    ensures (x + 1) / d - x / d == if (x + 1) % d == 0 then 1 else 0
  {
    var q, r := x / d, x % d;
    if r == d - 1 {
      DivModUnique(x + 1, d, q + 1, 0);
    } else {
      DivModUnique(x + 1, d, q, r + 1);
    }
  }

  /** Days from the start of year y to the first of month m (m == 13: the length of the year). */
  function DaysBeforeMonth(y: int, m: int): (n: int)
    requires 1 <= m <= 13
    ensures 0 <= n
  {
    [0, 31, 59, 90, 120, 151, 181, 212, 243, 273, 304, 334, 365][m - 1]
      + (if m > 2 && IsLeap(y) then 1 else 0)
  }

  lemma MonthLength(y: int, m: int)
    requires 1 <= m <= 12
    ensures DaysBeforeMonth(y, m + 1) - DaysBeforeMonth(y, m) == DaysInMonth(y, m)
  {
  }

  lemma DaysBeforeMonthYear(y: int)
    ensures DaysBeforeMonth(y, 13) == DaysBeforeYear(y + 1) - DaysBeforeYear(y)
  {
    YearLength(y);
  }

  predicate ValidDate(y: int, m: int, d: int)
  {
    1 <= m <= 12 && 1 <= d <= DaysInMonth(y, m)
  }

  /** Day number counted from 0001-01-01 (day 0). */
  function DayNumber(y: int, m: int, d: int): int
    requires 1 <= m <= 12
  {
    DaysBeforeYear(y) + DaysBeforeMonth(y, m) + d - 1
  }

  function YearUp(y: int, dn: int): (r: int)
    requires DaysBeforeYear(y) <= dn
    decreases dn - DaysBeforeYear(y)
    ensures y <= r && DaysBeforeYear(r) <= dn < DaysBeforeYear(r + 1)
  {
    YearLength(y);
    if dn < DaysBeforeYear(y + 1) then y else YearUp(y + 1, dn)
  }

  function YearDown(y: int, dn: int): (r: int)
    requires dn < DaysBeforeYear(y + 1)
    decreases DaysBeforeYear(y + 1) - dn
    ensures r <= y && DaysBeforeYear(r) <= dn < DaysBeforeYear(r + 1)
  {
    YearLength(y);
    if DaysBeforeYear(y) <= dn then y else YearDown(y - 1, dn)
  }

  /** The year holding day number dn. */
  function YearOf(dn: int): (y: int)
    ensures DaysBeforeYear(y) <= dn < DaysBeforeYear(y + 1)
    ensures dn >= 0 ==> y >= 1
  {
    if dn >= 0 then YearUp(1, dn) else YearDown(0, dn)
  }

  /** The month of a year holding day-of-year k (counted from 0). */
  function MonthFrom(y: int, m: int, k: int): (r: int)
    requires 1 <= m <= 12 && DaysBeforeMonth(y, m) <= k < DaysBeforeMonth(y, 13)
    decreases 12 - m
    ensures m <= r <= 12 && DaysBeforeMonth(y, r) <= k < DaysBeforeMonth(y, r + 1)
  {
    MonthLength(y, m);
    if k < DaysBeforeMonth(y, m + 1) then m else MonthFrom(y, m + 1, k)
  }

  datatype Date = Date(year: int, month: int, day: int)

  /** The calendar date of day number dn: a valid date whose day number is dn. */
  function CivilFromDays(dn: int): (c: Date)
    ensures ValidDate(c.year, c.month, c.day) && DayNumber(c.year, c.month, c.day) == dn
    ensures c.year == YearOf(dn)
  {
    var y := YearOf(dn);
    var k := dn - DaysBeforeYear(y);
    DaysBeforeMonthYear(y);
    var m := MonthFrom(y, 1, k);
    MonthLength(y, m);
    Date(y, m, k - DaysBeforeMonth(y, m) + 1)
  }

  // ---------------------------------------------------------------- timestamps

  /** The fields a yyyy-MM-dd'T'HH:mm:ss.SSSZ timestamp spells out, the zone in minutes east of UTC. */
  datatype Stamp = Stamp(year: int, month: int, day: int, hour: int, minute: int, second: int,
                         milli: int, offset: int)

  predicate ValidStamp(st: Stamp)
  {
    && 1 <= st.year <= 9999 && ValidDate(st.year, st.month, st.day)
    && 0 <= st.hour < 24 && 0 <= st.minute < 60 && 0 <= st.second < 60 && 0 <= st.milli < 1000
    && -1440 < st.offset < 1440
  }

  const MsPerDay: int := 86_400_000
  const EpochDay: int := 719_162   // DayNumber(1970, 1, 1)

  /** The instant a stamp denotes, in milliseconds since 1970-01-01T00:00:00Z. */
  function ToMillis(st: Stamp): int
    requires 1 <= st.month <= 12
  {
    (DayNumber(st.year, st.month, st.day) - EpochDay) * MsPerDay
      + st.hour * 3_600_000 + st.minute * 60_000 + st.second * 1000 + st.milli
      - st.offset * 60_000
  }

  /** The wall-clock fields of instant ms in a zone offset minutes east of UTC. */
  function FromMillis(ms: int, offset: int): (st: Stamp)
    ensures ValidDate(st.year, st.month, st.day) && st.offset == offset
    ensures 0 <= st.hour < 24 && 0 <= st.minute < 60 && 0 <= st.second < 60 && 0 <= st.milli < 1000
  {
    var local := ms + offset * 60_000;
    var c := CivilFromDays(local / MsPerDay + EpochDay);
    var t := local % MsPerDay;
    Stamp(c.year, c.month, c.day, t / 3_600_000, (t / 60_000) % 60, (t / 1000) % 60, t % 1000, offset)
  }

  lemma FromMillisToMillis(ms: int, offset: int)
    ensures ToMillis(FromMillis(ms, offset)) == ms
  {
    var local := ms + offset * 60_000;
    var t := local % MsPerDay;
    assert local == (local / MsPerDay) * MsPerDay + t;
    TimeOfDay(t);
  }

  lemma TimeOfDay(t: int)
    requires 0 <= t < MsPerDay
    ensures t == (t / 3_600_000) * 3_600_000 + ((t / 60_000) % 60) * 60_000 + ((t / 1000) % 60) * 1000 + t % 1000
  {
    var h, m, s, u := t / 3_600_000, (t / 60_000) % 60, (t / 1000) % 60, t % 1000;
    assert t / 1000 == (t / 60_000) * 60 + s;
    assert t / 60_000 == h * 60 + m;
    assert t == (t / 1000) * 1000 + u;
  }

  /** The year as yyyy prints it: the year of the era, at least four digits. */
  function YearText(y: int): string
  {
    Pad(if y >= 1 then y else 1 - y, 4)
  }

  function ZoneText(offset: int): string
  {
    var a := if offset < 0 then -offset else offset;
    [if offset < 0 then '-' else '+'] + Pad(a / 60, 2) + Pad(a % 60, 2)
  }

  /** A separator followed by a field of (at least) width decimal digits. */
  datatype Part = Part(sep: char, width: nat)

  /** -MM-dd'T'HH:mm:ss.SSS, the pattern between the year and the zone. */
  const ClockParts: seq<Part> := [Part('-', 2), Part('-', 2), Part('T', 2), Part(':', 2), Part(':', 2), Part('.', 3)]

  /** The fields vs written out after the pattern ps. */
  function RenderParts(ps: seq<Part>, vs: seq<nat>): string
    requires |vs| == |ps|
  {
    if ps == [] then "" else [ps[0].sep] + (Pad(vs[0], ps[0].width) + RenderParts(ps[1..], vs[1..]))
  }

  /** Reads the fields of pattern ps off the front of s: their values and the text after them. */
  function ParseParts(ps: seq<Part>, s: string): (r: Option<(seq<nat>, string)>)
    ensures r.Some? ==> |r.value.0| == |ps|
  {
    if ps == [] then Some(([], s))
    else
      var w := ps[0].width;
      if |s| < 1 + w || s[0] != ps[0].sep then None
      else match (Num(s[1..1 + w]), ParseParts(ps[1..], s[1 + w..]))
        case (Some(v), Some((vs, rest))) => Some(([v] + vs, rest))
        case _ => None
  }

  /** Every field has room for its value in the pattern's width. */
  predicate Fits(ps: seq<Part>, vs: seq<nat>)
  {
    |vs| == |ps| && forall i :: 0 <= i < |ps| ==> 1 <= ps[i].width && vs[i] < Pow10(ps[i].width)
  }

  /** Reading back fields written out after a pattern gives the fields and what follows them. */
  lemma {:induction false} PartsRoundTrip(ps: seq<Part>, vs: seq<nat>, rest: string)
    requires Fits(ps, vs)
    ensures ParseParts(ps, RenderParts(ps, vs) + rest) == Some((vs, rest))
  {
    if ps != [] {
      var tail := RenderParts(ps[1..], vs[1..]);
      var s := RenderParts(ps, vs) + rest;
      assert RenderParts(ps, vs) == [ps[0].sep] + (Pad(vs[0], ps[0].width) + tail);
      PartFront(ps[0], vs[0], tail, rest);
      FitsTail(ps, vs);
      PartsRoundTrip(ps[1..], vs[1..], rest);
      ParseStep(ps, s, vs[0], vs[1..], rest);
      assert [vs[0]] + vs[1..] == vs;
    } else {
      assert RenderParts(ps, vs) + rest == rest;
    }
  }

  /** ParseParts one field at a time. */
  lemma ParseStep(ps: seq<Part>, s: string, v: nat, vs: seq<nat>, rest: string)
    requires ps != [] && |s| >= 1 + ps[0].width && s[0] == ps[0].sep
    requires Num(s[1..1 + ps[0].width]) == Some(v) && ParseParts(ps[1..], s[1 + ps[0].width..]) == Some((vs, rest))
    ensures ParseParts(ps, s) == Some(([v] + vs, rest))
  {
  }

  /** One field read off the front of a text. */
  lemma PartFront(p: Part, v: nat, tail: string, rest: string)
    requires 1 <= p.width && v < Pow10(p.width)
    ensures var s := ([p.sep] + (Pad(v, p.width) + tail)) + rest;
      |s| >= 1 + p.width && s[0] == p.sep && Num(s[1..1 + p.width]) == Some(v) && s[1 + p.width..] == tail + rest
  {
    var field := Pad(v, p.width);
    NumPad(v, p.width);
    var s := ([p.sep] + (field + tail)) + rest;
    assert s == [p.sep] + (field + (tail + rest));
    assert s[1..1 + p.width] == field;
  }

  lemma FitsTail(ps: seq<Part>, vs: seq<nat>)
    requires Fits(ps, vs) && ps != []
    ensures 1 <= ps[0].width && vs[0] < Pow10(ps[0].width) && Fits(ps[1..], vs[1..])
  {
    forall i | 0 <= i < |ps| - 1
      ensures 1 <= ps[1..][i].width && vs[1..][i] < Pow10(ps[1..][i].width)
    {
      assert ps[1..][i] == ps[i + 1] && vs[1..][i] == vs[i + 1];
    }
  }

  /** The clock fields of a stamp, in the order of ClockParts. */
  function ClockFields(st: Stamp): seq<nat>
    requires st.month >= 0 && st.day >= 0 && st.hour >= 0 && st.minute >= 0 && st.second >= 0 && st.milli >= 0
  {
    [st.month, st.day, st.hour, st.minute, st.second, st.milli]
  }

  /** The text formatJiraDate writes for a stamp: yyyy-MM-dd'T'HH:mm:ss.SSSZ. */
  function Render(st: Stamp): string
    requires st.month >= 0 && st.day >= 0 && st.hour >= 0 && st.minute >= 0 && st.second >= 0 && st.milli >= 0
  {
    YearText(st.year) + (RenderParts(ClockParts, ClockFields(st)) + ZoneText(st.offset))
  }

  /** The value of a field of decimal digits, or None. */
  function Num(t: string): Option<nat>
  {
    if AllDigits(t) then Some(DigitsValue(t)) else None
  }

  /** Reads a yyyy-MM-dd'T'HH:mm:ss.SSSZ timestamp field by field; None unless every
      separator is in place, every field has its width and is in range, and nothing follows
      the zone. */
  function ParseStamp(s: string): (r: Option<Stamp>)
    ensures r.Some? ==> ValidStamp(r.value)
  {
    if |s| < 4 then None
    else match (Num(s[..4]), ParseParts(ClockParts, s[4..]))
      case (Some(y), Some((vs, z))) =>
        if |z| != 5 || (z[0] != '+' && z[0] != '-') then None
        else (match (Num(z[1..3]), Num(z[3..5]))
          case (Some(zh), Some(zm)) =>
            var mag: int := zh * 60 + zm;
            var st := Stamp(y, vs[0], vs[1], vs[2], vs[3], vs[4], vs[5], if z[0] == '-' then -mag else mag);
            if zh < 24 && zm < 60 && ValidStamp(st) then Some(st) else None
          case _ => None)
      case _ => None
  }

  lemma Pow10Small()
    ensures Pow10(2) == 100 && Pow10(3) == 1000 && Pow10(4) == 10000
  {
    assert Pow10(1) == 10;
  }

  lemma NumPad(v: nat, n: nat)
    requires n >= 1 && v < Pow10(n)
    ensures |Pad(v, n)| == n && Num(Pad(v, n)) == Some(v)
  {
    PadValue(v, n);
  }

  /** Where the sign and the two fields of a zone sit, and what they read back as. */
  lemma ZoneLayout(offset: int)
    requires -1440 < offset < 1440
    ensures var z := ZoneText(offset); var a := if offset < 0 then -offset else offset;
      |z| == 5 && z[0] == (if offset < 0 then '-' else '+') &&
      Num(z[1..3]) == Some(a / 60) && Num(z[3..5]) == Some(a % 60)
  {
    var a := if offset < 0 then -offset else offset;
    Pow10Small();
    NumPad(a / 60, 2);
    NumPad(a % 60, 2);
    var z := ZoneText(offset);
    assert z[1..3] == Pad(a / 60, 2);
    assert z[3..5] == Pad(a % 60, 2);
  }

  /** Reading back a rendered stamp gives the stamp. */
  lemma RenderParse(st: Stamp)
    requires ValidStamp(st)
    ensures ParseStamp(Render(st)) == Some(st)
  {
    var vs := ClockFields(st);
    var z := ZoneText(st.offset);
    ClockFits(st);
    PartsRoundTrip(ClockParts, vs, z);
    ZoneLayout(st.offset);
    YearFront(st);
    var a := if st.offset < 0 then -st.offset else st.offset;
    assert (a / 60) * 60 + a % 60 == a;
    ParseStampOf(Render(st), st.year, vs, z, a / 60, a % 60);
  }

  /** ParseStamp on a text whose fields all read. */
  lemma ParseStampOf(s: string, y: nat, vs: seq<nat>, z: string, zh: nat, zm: nat)
    requires |s| >= 4 && Num(s[..4]) == Some(y) && ParseParts(ClockParts, s[4..]) == Some((vs, z))
    requires |z| == 5 && (z[0] == '+' || z[0] == '-') && Num(z[1..3]) == Some(zh) && Num(z[3..5]) == Some(zm)
    requires zh < 24 && zm < 60
    requires var mag := zh * 60 + zm;
      ValidStamp(Stamp(y, vs[0], vs[1], vs[2], vs[3], vs[4], vs[5], if z[0] == '-' then -mag else mag))
    ensures var mag := zh * 60 + zm;
      ParseStamp(s) == Some(Stamp(y, vs[0], vs[1], vs[2], vs[3], vs[4], vs[5], if z[0] == '-' then -mag else mag))
  {
  }

  lemma ClockFits(st: Stamp)
    requires ValidStamp(st)
    ensures Fits(ClockParts, ClockFields(st))
  {
    Pow10Small();
  }

  /** The year is the first four characters of a rendered stamp. */
  lemma YearFront(st: Stamp)
    requires ValidStamp(st)
    ensures var s := Render(st);
      |s| >= 4 && Num(s[..4]) == Some(st.year) &&
      s[4..] == RenderParts(ClockParts, ClockFields(st)) + ZoneText(st.offset)
  {
    Pow10Small();
    NumPad(st.year, 4);
    var s := Render(st);
    assert s[..4] == YearText(st.year);
  }

  /** parseJiraDate: null for a null, blank or unparseable text, the instant otherwise; never fails. */
  function ParseJiraDate(text: Option<string>): (r: Option<int>)
    ensures text.None? || IsBlank(text.value) ==> r.None?
    ensures r.Some? ==> exists st :: ParseStamp(text.value) == Some(st) && ToMillis(st) == r.value
  {
    match text
    case None => None
    case Some(s) =>
      if IsBlank(s) then None
      else match ParseStamp(s)
        case Some(st) => Some(ToMillis(st))
        case None => None
  }

  /** formatJiraDate: null stays null; otherwise the instant rendered in a zone offset minutes
      east of UTC (the JVM default zone, taken here as a fixed offset). */
  function FormatJiraDate(millis: Option<int>, offset: int): (r: Option<string>)
    ensures millis.None? <==> r.None?
  {
    match millis
    case None => None
    case Some(ms) => Some(Render(FromMillis(ms, offset)))
  }

  /** formatJiraDate and parseJiraDate share one pattern: parsing what was formatted for an
      instant whose local year has four digits gives back the instant. */
  lemma FormatParseRoundTrip(ms: int, offset: int)
    requires -1440 < offset < 1440 && 1 <= FromMillis(ms, offset).year <= 9999
    ensures ParseJiraDate(FormatJiraDate(Some(ms), offset)) == Some(ms)
  {
    var st := FromMillis(ms, offset);
    RenderParse(st);
    Pow10Small();
    NumPad(st.year, 4);
    var s := Render(st);
    assert s[0] == YearText(st.year)[0];
    assert !IsBlank(s);
    FromMillisToMillis(ms, offset);
  }

  // ---------------------------------------------------------------- release dates

  function MonthAbbrev(m: int): string
    requires 1 <= m <= 12
  {
    ["Jan", "Feb", "Mar", "Apr", "May", "Jun", "Jul", "Aug", "Sep", "Oct", "Nov", "Dec"][m - 1]
  }

  /** The month an MMM field names, matched ignoring case: String.regionMatches with Java's
      case tables, which against the ASCII names is equality once folded
      (Strings.EqualsAsciiIgnoringCase). */
  function MonthOf(t: string): (r: Option<int>)
    ensures r.Some? ==> 1 <= r.value <= 12
  {
    var l := Folded(t);
    if l == "jan" then Some(1) else if l == "feb" then Some(2) else if l == "mar" then Some(3)
    else if l == "apr" then Some(4) else if l == "may" then Some(5) else if l == "jun" then Some(6)
    else if l == "jul" then Some(7) else if l == "aug" then Some(8) else if l == "sep" then Some(9)
    else if l == "oct" then Some(10) else if l == "nov" then Some(11) else if l == "dec" then Some(12)
    else None
  }

  lemma MonthOfAbbrev(m: int)
    requires 1 <= m <= 12
    ensures MonthOf(MonthAbbrev(m)) == Some(m)
  {
    var l := Folded(MonthAbbrev(m));
    assert l == [ToLowerAscii(MonthAbbrev(m)[0]), MonthAbbrev(m)[1], MonthAbbrev(m)[2]];
  }

  /** A date as yyyy-MM-dd. */
  function StandardDate(y: nat, m: nat, d: nat): string
  {
    Pad(y, 4) + "-" + Pad(m, 2) + "-" + Pad(d, 2)
  }

  /** parseVersionDate: null for a null or blank text; a dd/MMM/yy date re-emitted as
      yyyy-MM-dd (two-digit years read as 20yy); a ParseException for anything else. */
  function ParseVersionDate(text: Option<string>): (r: Result<Option<string>>)
    ensures text.None? || IsBlank(text.value) ==> r == Ok(None)
    ensures r.Ok? && r.value.Some? ==> |r.value.value| == 10
    ensures r.Err? ==> r.error == ParseFailure
  {
    match text
    case None => Ok(None)
    case Some(s) =>
      if IsBlank(s) then Ok(None)
      else if |s| == 9 && s[2] == '/' && s[6] == '/' then
        match (Num(s[..2]), MonthOf(s[3..6]), Num(s[7..9]))
        case (Some(d), Some(m), Some(yy)) =>
          if ValidDate(2000 + yy, m, d) then
            DigitsValueBound(s[7..9]);
            StandardDateLength(2000 + yy, m, d);
            Ok(Some(StandardDate(2000 + yy, m, d)))
          else Err(ParseFailure)
        case _ => Err(ParseFailure)
      else Err(ParseFailure)
  }

  lemma StandardDateLength(y: nat, m: nat, d: nat)
    requires y < 10000 && m < 100 && d < 100
    ensures |StandardDate(y, m, d)| == 10
  {
    Pow10Small();
    PadValue(y, 4);
    PadValue(m, 2);
    PadValue(d, 2);
  }

  /** A well-formed release date is re-emitted in the standard form, field for field. */
  lemma VersionDateReformat(d: nat, m: int, yy: nat)
    requires 1 <= m <= 12 && yy < 100 && ValidDate(2000 + yy, m, d)
    ensures ParseVersionDate(Some(Pad(d, 2) + "/" + MonthAbbrev(m) + "/" + Pad(yy, 2)))
         == Ok(Some(StandardDate(2000 + yy, m, d)))
  {
    Pow10Small();
    NumPad(d, 2);
    NumPad(yy, 2);
    MonthOfAbbrev(m);
    ReleaseLayout(Pad(d, 2), MonthAbbrev(m), Pad(yy, 2));
    var s := Pad(d, 2) + "/" + MonthAbbrev(m) + "/" + Pad(yy, 2);
    assert s[0] == Pad(d, 2)[0];
    assert !IsBlank(s);
  }

  /** Where the fields of a dd/MMM/yy text sit. */
  lemma ReleaseLayout(dd: string, mmm: string, yy: string)
    requires |dd| == 2 && |mmm| == 3 && |yy| == 2
    ensures var s := dd + "/" + mmm + "/" + yy;
      |s| == 9 && s[2] == '/' && s[6] == '/' && s[..2] == dd && s[3..6] == mmm && s[7..9] == yy
  {
    var s := dd + "/" + mmm + "/" + yy;
    assert s[..2] == dd;
    assert s[3..6] == mmm;
    assert s[7..9] == yy;
  }

  /** The release date of the webhook fixture. */
  lemma VersionDateExample()
    ensures ParseVersionDate(Some("05/Jun/15")) == Ok(Some("2015-06-05"))
  {
    ExampleReleaseText();
    ExampleStandardText();
    VersionDateReformat(5, 6, 15);
  }

  lemma ExampleReleaseText()
    ensures Pad(5, 2) + "/" + MonthAbbrev(6) + "/" + Pad(15, 2) == "05/Jun/15"
  {
    assert Pad(5, 2) == "05";
    assert Pad(15, 2) == "15";
  }

  lemma ExampleStandardText()
    ensures StandardDate(2015, 6, 5) == "2015-06-05"
  {
    assert Pad(6, 2) == "06";
    assert Pad(5, 2) == "05";
    assert Pad(2015, 4) == "2015";
  }

  /** A release date given where a timestamp is expected (digits and then a slash within the
      first four characters, as in 05/Jun/15) reads as null: the year field is cut short. */
  lemma SlashDateIsNoStamp(s: string, k: nat)
    requires 1 <= k < 4 && k < |s| && AllDigits(s[..k]) && s[k] == '/'
    ensures ParseJiraDate(Some(s)) == None
  {
    if |s| >= 4 {
      assert !AllDigits(s[..4]) by { assert s[..4][k] == '/'; }
    }
  }

  /** A timestamp or yyyy-MM-dd date given where a release date is expected (digits and then a
      dash, as in 2015-06-05) is a parse failure: the day is not followed by a slash. Unlike
      parseJiraDate, parseVersionDate does not turn a failure into null. */
  lemma DashDateIsNoRelease(s: string, k: nat)
    requires 1 <= k < |s| && AllDigits(s[..k]) && s[k] == '-'
    ensures ParseVersionDate(Some(s)) == Err(ParseFailure)
  {
    assert s[0] == s[..k][0];
    assert !IsBlank(s) by { assert !IsWhitespace(s[0]); }
    if k < 2 && |s| >= 2 {
      assert !AllDigits(s[..2]) by { assert s[..2][k] == '-'; }
    } else if k > 2 {
      assert s[2] == s[..k][2];
    }
  }
}
