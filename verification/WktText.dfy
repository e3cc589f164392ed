/** protojson text of google.protobuf Timestamp and Duration values. */
module WktText {
  import opened Common
  import opened Decimal
  import opened Calendar

  datatype Error =
    | MissingT | BadDate | BadYear | BadMonth | BadDay
    | BadTime | BadHour | BadMinute | BadFraction | BadSecond | BadOffset
    | MissingSuffix | BadDuration

  datatype Result<T> = Ok(value: T) | Err(error: Error)

  /** A Timestamp or a Duration. */
  datatype Moment = Moment(seconds: int, nanos: int)

  predicate InWidth(t: Moment) {
    I64_MIN <= t.seconds <= I64_MAX && I32_MIN <= t.nanos <= I32_MAX
  }

  function ToI64(s: string, e: Error): Result<int> {
    match ParseInt(s, I64_MIN, I64_MAX)
    case Some(n) => Ok(n)
    case None => Err(e)
  }

  // -------------------------------------------------------------------------
  // Fractions of a second: 3, 6 or 9 digits
  // -------------------------------------------------------------------------

  /** Digits shown for `n` nanoseconds. */
  function FractionWidth(n: int): nat {
    if n % 1_000_000 == 0 then 3 else if n % 1_000 == 0 then 6 else 9
  }

  /** The number shown; the division is exact, so rounding direction is moot. */
  function FractionUnits(n: int): int {
    if n % 1_000_000 == 0 then n / 1_000_000 else if n % 1_000 == 0 then n / 1_000 else n
  }

  function FormatFraction(n: int): string {
    Pad(FractionWidth(n), FractionUnits(n))
  }

  function FractionValue(frac: string): Result<int> {
    if frac == "" || |frac| > 9 then Err(BadFraction)
    else
      match ParseInt(frac + Zeros(9 - |frac|), I32_MIN, I32_MAX)
      case Some(n) => Ok(n)
      case None => Err(BadFraction)
  }

  method ParseFraction(frac: string) returns (r: Result<int>)
    ensures r == FractionValue(frac)
  {
    if frac == "" || |frac| > 9 {
      return Err(BadFraction);
    }
    var digits := frac;
    while |digits| < 9
      invariant |frac| <= |digits| <= 9
      invariant digits == frac + Zeros(|digits| - |frac|)
    {
      digits := digits + "0";
    }
    var n := ParseInt(digits, I32_MIN, I32_MAX);
    return if n.Some? then Ok(n.value) else Err(BadFraction);
  }

  /** The digits printed are exactly as wide as intended. */
  predicate FractionFits(n: int) {
    |FormatFraction(n)| == FractionWidth(n)
  }

  lemma WidthOfUnits(w: nat, u: int)
    requires w == 3 || w == 6 || w == 9
    ensures |Pad(w, u)| == w <==> -Scale(1, w - 1) < u < Scale(1, w)
  {
    if u < 0 {
      DigitsLength(-u, w - 1);
    } else {
      DigitsLength(u, w);
    }
  }

  lemma FractionFitsIff(n: int)
    ensures FractionFits(n) <==> -100_000_000 < n < 1_000_000_000
  {
    WidthOfUnits(FractionWidth(n), FractionUnits(n));
    assert Scale(1, 3) == 1_000 && Scale(1, 6) == 1_000_000 && Scale(1, 9) == 1_000_000_000;
    assert Scale(1, 2) == 100 && Scale(1, 5) == 100_000 && Scale(1, 8) == 100_000_000;
  }

  /** Padding a printed number on the right scales it. */
  lemma PaddedValue(w: nat, u: int, k: nat)
    requires I32_MIN <= Scale(u, k) <= I32_MAX
    ensures ParseInt(Pad(w, u) + Zeros(k), I32_MIN, I32_MAX) == Some(Scale(u, k))
  {
    if u < 0 {
      PaddedNegative(w, -u, k);
    } else {
      ZeroPadValue(w, u);
      TrailingZeros(Pad(w, u), k);
      ParsePlain(Pad(w, u) + Zeros(k), Scale(u, k), I32_MIN, I32_MAX);
    }
  }

  lemma PaddedNegative(w: nat, n: int, k: nat)
    requires n > 0 && I32_MIN <= Scale(-n, k) <= I32_MAX
    ensures ParseInt(Pad(w, -n) + Zeros(k), I32_MIN, I32_MAX) == Some(Scale(-n, k))
  {
    var s := ZeroPad(w - 1, Digits(n));
    ZeroPadValue(w - 1, n);
    ScaleNeg(n, k);
    PadOfNegative(w, n);
    MinusPadded(s, n, k);
  }

  lemma PadOfNegative(w: nat, n: int)
    requires n > 0
    ensures Pad(w, -n) == "-" + ZeroPad(w - 1, Digits(n))
  {
  }

  lemma MinusPadded(s: string, n: int, k: nat)
    requires s != "" && AllDigits(s) && Value(s) == n
    ensures ParseInt("-" + s + Zeros(k), I32_MIN, I32_MAX) == Within(-Scale(n, k), I32_MIN, I32_MAX)
  {
    TrailingZeros(s, k);
    ParseMinus(s + Zeros(k), Scale(n, k), I32_MIN, I32_MAX);
    assert "-" + s + Zeros(k) == "-" + (s + Zeros(k));
  }

  lemma {:induction false} ScaleNeg(n: int, k: nat)
    ensures Scale(-n, k) == -Scale(n, k)
  {
    if k == 0 {
    } else {
      ScaleNeg(n, k - 1);
    }
  }

  /** What a printed fraction reads back as, for widths that fit and that do not. */
  lemma FractionReadsAs(n: int)
    requires I32_MIN <= n <= I32_MAX
    ensures FractionFits(n) ==> FractionValue(FormatFraction(n)) == Ok(n)
    ensures !FractionFits(n) ==> FractionValue(FormatFraction(n)) != Ok(n)
  {
    var w, u := FractionWidth(n), FractionUnits(n);
    var s := FormatFraction(n);
    PadText(w, u);
    if |s| <= 9 {
      var k := 9 - |s|;
      assert Scale(u, 9 - w) == n by {
        assert Scale(u, 1) == 10 * u;
        assert Scale(u, 3) == 1_000 * u;
        assert Scale(u, 5) == 100_000 * u;
      }
      ScaleLess(u, 9 - w, k);
      PaddedValue(w, u, k);
    }
  }

  /** Fewer zeros give a strictly smaller magnitude. */
  lemma {:induction false} ScaleLess(u: int, big: nat, small: nat)
    requires small <= big
    ensures u >= 0 ==> 0 <= Scale(u, small) <= Scale(u, big)
    ensures u <= 0 ==> Scale(u, big) <= Scale(u, small) <= 0
    ensures u != 0 && small < big ==> Scale(u, small) != Scale(u, big)
    ensures u != 0 ==> Scale(u, small) != 0
    decreases big
  {
    if small > 0 {
      ScaleLess(u, big - 1, small - 1);
    } else if big > 0 {
      ScaleLess(u, big - 1, 0);
    }
  }

  // -------------------------------------------------------------------------
  // Timestamp
  // -------------------------------------------------------------------------

  function DateText(t: Date): string {
    Join3(Pad(4, t.year), Pad(2, t.month), Pad(2, t.day), '-')
  }

  /** Seconds of a minute with the fraction, left out when there is none. */
  function SecondText(ss: int, nanos: int): string {
    if nanos == 0 then Pad(2, ss) else Pad(2, ss) + ['.'] + FormatFraction(nanos)
  }

  function ClockText(hh: int, mm: int, ss: int, nanos: int): string {
    Join3(Pad(2, hh), Pad(2, mm), SecondText(ss, nanos), ':')
  }

  function TimeText(secs: int, nanos: int): string {
    ClockText(secs / 3600, secs % 3600 / 60, secs % 60, nanos)
  }

  /** Date and time of day without a zone. */
  function LocalText(t: Moment): string {
    DateText(CivilFromDays(t.seconds / 86_400)) + ['T'] + TimeText(t.seconds % 86_400, t.nanos)
  }

  function FormatTimestamp(t: Moment): string {
    LocalText(t) + "Z"
  }

  function ParseDate(s: string): Result<Date> {
    var parts := Split(s, '-');
    if |parts| != 3 then Err(BadDate)
    else
      match ToI64(parts[0], BadYear)
      case Err(e) => Err(e)
      case Ok(y) =>
        match ToI64(parts[1], BadMonth)
        case Err(e) => Err(e)
        case Ok(m) =>
          match ToI64(parts[2], BadDay)
          case Err(e) => Err(e)
          case Ok(d) => Ok(Date(y, m, d))
  }

  /** The seconds field, with an optional fraction; the fraction is read first. */
  function ParseSecond(s: string): Result<Moment> {
    match SplitOnce(s, '.')
    case None =>
      (match ToI64(s, BadSecond)
       case Err(e) => Err(e)
       case Ok(ss) => Ok(Moment(ss, 0)))
    case Some(p) =>
      match FractionValue(p.1)
      case Err(e) => Err(e)
      case Ok(nanos) =>
        match ToI64(p.0, BadSecond)
        case Err(e) => Err(e)
        case Ok(ss) => Ok(Moment(ss, nanos))
  }

  function AddClock(secs: int, r: Result<Moment>): Result<Moment> {
    match r
    case Err(e) => Err(e)
    case Ok(s) => Ok(Moment(secs + s.seconds, s.nanos))
  }

  function ParseTime(s: string): Result<Moment> {
    var parts := Split(s, ':');
    if |parts| != 3 then Err(BadTime)
    else
      match ToI64(parts[0], BadHour)
      case Err(e) => Err(e)
      case Ok(hh) =>
        match ToI64(parts[1], BadMinute)
        case Err(e) => Err(e)
        case Ok(mm) => AddClock(hh * 3600 + mm * 60, ParseSecond(parts[2]))
  }

  predicate IsSign(c: char) {
    c == '+' || c == '-'
  }

  /** The text up to the first sign, and the text from it on. */
  function AtSign(s: string): (string, Option<string>) {
    if s == "" then ("", None)
    else if IsSign(s[0]) then ("", Some(s))
    else var p := AtSign(s[1..]); ([s[0]] + p.0, p.1)
  }

  function OffsetSplit(rest: string): (string, Option<string>) {
    if rest != "" && rest[|rest| - 1] in "Zz" then (rest[..|rest| - 1], Some("Z"))
    else AtSign(rest)
  }

  method SplitOffset(rest: string) returns (time: string, offset: Option<string>)
    ensures (time, offset) == OffsetSplit(rest)
  {
    if rest != "" && rest[|rest| - 1] in "Zz" {
      return rest[..|rest| - 1], Some("Z");
    }
    for i := 0 to |rest|
      invariant forall k | 0 <= k < i :: !IsSign(rest[k])
    {
      if IsSign(rest[i]) {
        AtSignIs(rest[..i], rest[i..]);
        assert rest[..i] + rest[i..] == rest;
        return rest[..i], Some(rest[i..]);
      }
    }
    AtSignIs(rest, "");
    assert rest + "" == rest;
    return rest, None;
  }

  lemma {:induction false} AtSignIs(a: string, b: string)
    requires forall c | c in a :: !IsSign(c)
    requires b == "" || IsSign(b[0])
    ensures AtSign(a + b) == (a, if b == "" then None else Some(b))
  {
    if a == "" {
      assert a + b == b;
    } else {
      AtSignIs(a[1..], b);
      assert (a + b)[1..] == a[1..] + b;
      assert [a[0]] + a[1..] == a;
    }
  }

  /** Seconds east of UTC. */
  function ParseOffset(off: Option<string>): Result<int> {
    match off
    case None => Ok(0)
    case Some(o) =>
      if o == "Z" || o == "z" then Ok(0)
      else if o == "" || !IsSign(o[0]) then Err(BadOffset)
      else
        var parts := Split(o[1..], ':');
        if |parts| != 2 then Err(BadOffset)
        else
          match ToI64(parts[0], BadOffset)
          case Err(e) => Err(e)
          case Ok(oh) =>
            match ToI64(parts[1], BadOffset)
            case Err(e) => Err(e)
            case Ok(om) => Ok((if o[0] == '+' then 1 else -1) * (oh * 3600 + om * 60))
  }

  function ParseDays(s: string): Result<int> {
    match ParseDate(s)
    case Err(e) => Err(e)
    case Ok(date) => Ok(DaysFromCivil(date))
  }

  /** The first error wins: date, then time, then offset. */
  function Combine(days: Result<int>, time: Result<Moment>, off: Result<int>): Result<Moment> {
    match days
    case Err(e) => Err(e)
    case Ok(d) =>
      match time
      case Err(e) => Err(e)
      case Ok(t) =>
        match off
        case Err(e) => Err(e)
        case Ok(o) => Ok(Moment(d * 86_400 + t.seconds - o, t.nanos))
  }

  function ParseTimestamp(value: string): Result<Moment> {
    match SplitOnce(value, 'T')
    case None => Err(MissingT)
    case Some(p) =>
      var (time, off) := OffsetSplit(p.1);
      Combine(ParseDays(p.0), ParseTime(time), ParseOffset(off))
  }

  // -------------------------------------------------------------------------
  // Reading a printed timestamp
  // -------------------------------------------------------------------------

  lemma ReadsBack(w: int, n: int, e: Error)
    requires I64_MIN <= n <= I64_MAX
    ensures ToI64(Pad(w, n), e) == Ok(n)
  {
    ParsePad(w, n, I64_MIN, I64_MAX);
  }

  /** A date with a year before 0 prints an extra '-' and is refused. */
  lemma DateReadsAs(t: Date)
    requires ValidDate(t) && I64_MIN <= t.year <= I64_MAX
    ensures ParseDate(DateText(t)) == if t.year >= 0 then Ok(t) else Err(BadDate)
  {
    PadText(4, t.year);
    PadText(2, t.month);
    PadText(2, t.day);
    ReadsBack(4, t.year, BadYear);
    ReadsBack(2, t.month, BadMonth);
    ReadsBack(2, t.day, BadDay);
    DateFields(Pad(4, t.year), Pad(2, t.month), Pad(2, t.day), t);
  }

  lemma DateFields(y: string, m: string, d: string, t: Date)
    requires '-' !in m && '-' !in d
    requires if t.year >= 0 then '-' !in y else y != "" && y[0] == '-' && '-' !in y[1..]
    requires ToI64(y, BadYear) == Ok(t.year) && ToI64(m, BadMonth) == Ok(t.month) && ToI64(d, BadDay) == Ok(t.day)
    ensures ParseDate(Join3(y, m, d, '-')) == if t.year >= 0 then Ok(t) else Err(BadDate)
  {
    if t.year >= 0 {
      SplitJoin3(y, m, d, '-');
    } else {
      var rest := Join3(y[1..], m, d, '-');
      SplitFirst("", '-', rest);
      SplitJoin3(y[1..], m, d, '-');
      assert y == "-" + y[1..];
      assert Join3(y, m, d, '-') == "" + ['-'] + rest;
    }
  }

  lemma FractionText(n: int)
    ensures forall c | c in FormatFraction(n) :: IsDigit(c) || c == '-'
    ensures n >= 0 ==> AllDigits(FormatFraction(n))
  {
    PadText(FractionWidth(n), FractionUnits(n));
  }

  /** The text reads as this moment if the fraction fits, and not otherwise. */
  predicate ReadsAs(r: Result<Moment>, secs: int, nanos: int, fits: bool) {
    if fits then r == Ok(Moment(secs, nanos)) else r.Err? || r.value.nanos != nanos
  }

  lemma SecondReadsAs(ss: int, nanos: int)
    requires 0 <= ss < 60 && I32_MIN <= nanos <= I32_MAX
    ensures ReadsAs(ParseSecond(SecondText(ss, nanos)), ss, nanos, FractionFits(nanos))
  {
    PadText(2, ss);
    ReadsBack(2, ss, BadSecond);
    if nanos == 0 {
      FractionFitsIff(0);
      SplitAbsent(Pad(2, ss), '.');
    } else {
      SplitFirst(Pad(2, ss), '.', FormatFraction(nanos));
      FractionReadsAs(nanos);
    }
  }

  lemma TimeReadsAs(secs: int, nanos: int)
    requires 0 <= secs < 86_400 && I32_MIN <= nanos <= I32_MAX
    ensures ReadsAs(ParseTime(TimeText(secs, nanos)), secs, nanos, FractionFits(nanos))
  {
    ClockParts(secs);
    ClockReadsAs(secs / 3600, secs % 3600 / 60, secs % 60, nanos, secs);
  }

  lemma ClockParts(secs: int)
    requires 0 <= secs < 86_400
    ensures var hh, mm, ss := secs / 3600, secs % 3600 / 60, secs % 60;
            0 <= hh < 24 && 0 <= mm < 60 && 0 <= ss < 60 && hh * 3600 + mm * 60 + ss == secs
  {
    var hh, mm := secs / 3600, secs % 3600 / 60;
    assert secs == 60 * (60 * hh + mm) + secs % 3600 % 60;
  }

  lemma ClockReadsAs(hh: int, mm: int, ss: int, nanos: int, secs: int)
    requires 0 <= hh < 24 && 0 <= mm < 60 && 0 <= ss < 60 && I32_MIN <= nanos <= I32_MAX
    requires secs == hh * 3600 + mm * 60 + ss
    ensures ReadsAs(ParseTime(ClockText(hh, mm, ss, nanos)), secs, nanos, FractionFits(nanos))
  {
    var sec := SecondText(ss, nanos);
    assert ':' !in Pad(2, hh) && ':' !in Pad(2, mm) && ':' !in sec by {
      PadText(2, hh);
      PadText(2, mm);
      PadText(2, ss);
      FractionText(nanos);
    }
    ReadsBack(2, hh, BadHour);
    ReadsBack(2, mm, BadMinute);
    SecondReadsAs(ss, nanos);
    ClockFields(Pad(2, hh), Pad(2, mm), sec, hh, mm, ss, nanos, secs, FractionFits(nanos));
  }

  lemma ClockFields(h: string, m: string, s: string, hh: int, mm: int, ss: int, nanos: int,
                    secs: int, fits: bool)
    requires secs == hh * 3600 + mm * 60 + ss && ':' !in h && ':' !in m && ':' !in s
    requires ToI64(h, BadHour) == Ok(hh) && ToI64(m, BadMinute) == Ok(mm)
    requires ReadsAs(ParseSecond(s), ss, nanos, fits)
    ensures ReadsAs(ParseTime(Join3(h, m, s, ':')), secs, nanos, fits)
  {
    SplitJoin3(h, m, s, ':');
  }

  lemma YearSign(n: int)
    ensures CivilFromDays(n).year >= 0 <==> n >= -719_528
    ensures I64_MIN <= n <= I64_MAX ==> I64_MIN <= CivilFromDays(n).year <= I64_MAX
  {
    var t := CivilFromDays(n);
    ClosedFormsAreTheCalendar(n);
    DaysByMarchYear(t);
    MarchBounds(t);
  }

  lemma MarchBounds(t: Date)
    requires ValidDate(t)
    ensures var n := MarchDays(MarchYear(t), MarchMonth(t), t.day);
            (t.year >= 0 <==> n >= -719_528)
            && (I64_MIN <= n <= I64_MAX ==> I64_MIN <= t.year <= I64_MAX)
  {
  }

  lemma DaysReadAs(n: int)
    requires I64_MIN <= n <= I64_MAX
    ensures ParseDays(DateText(CivilFromDays(n))) == if n >= -719_528 then Ok(n) else Err(BadDate)
  {
    var t := CivilFromDays(n);
    YearSign(n);
    ClosedFormsAreTheCalendar(n);
    DateReadsAs(t);
  }

  /** The parts of a printed local time, with a zone suffix. */
  lemma LocalSplits(t: Moment, zone: string)
    ensures SplitOnce(LocalText(t) + zone, 'T')
         == Some((DateText(CivilFromDays(t.seconds / 86_400)), TimeText(t.seconds % 86_400, t.nanos) + zone))
  {
    var d := CivilFromDays(t.seconds / 86_400);
    DateHasNoT(d);
    SplitsAtT(DateText(d), TimeText(t.seconds % 86_400, t.nanos), zone);
  }

  lemma DateHasNoT(d: Date)
    ensures 'T' !in DateText(d)
  {
    PadText(4, d.year);
    PadText(2, d.month);
    PadText(2, d.day);
  }

  lemma SplitsAtT(date: string, time: string, zone: string)
    requires 'T' !in date
    ensures SplitOnce(date + ['T'] + time + zone, 'T') == Some((date, time + zone))
  {
    SplitFirst(date, 'T', time + zone);
    assert date + ['T'] + time + zone == date + ['T'] + (time + zone);
  }

  /** Timestamps that print to text the parser maps back to them. */
  predicate Printable(t: Moment) {
    t.seconds >= -62_167_219_200 && -100_000_000 < t.nanos < 1_000_000_000
  }

  /** What printed local time with a zone reads as, part by part. */
  lemma LocalReadsAs(t: Moment, zone: string, off: Option<string>)
    requires var time := TimeText(t.seconds % 86_400, t.nanos); OffsetSplit(time + zone) == (time, off)
    ensures ParseTimestamp(LocalText(t) + zone)
         == Combine(ParseDays(DateText(CivilFromDays(t.seconds / 86_400))),
                    ParseTime(TimeText(t.seconds % 86_400, t.nanos)),
                    ParseOffset(off))
  {
    LocalSplits(t, zone);
  }

  lemma CombineParts(t: Moment, secs: int, o: int, days: Result<int>, time: Result<Moment>, fits: bool)
    requires days == if secs / 86_400 >= -719_528 then Ok(secs / 86_400) else Err(BadDate)
    requires ReadsAs(time, secs % 86_400, t.nanos, fits)
    requires secs == t.seconds + o
    ensures Combine(days, time, Ok(o)) == Ok(t) <==> secs >= -62_167_219_200 && fits
    ensures secs < -62_167_219_200 ==> Combine(days, time, Ok(o)) == Err(BadDate)
  {
  }

  /** A printed timestamp parses back to itself exactly when its year is not
      negative and its fraction fits; timestamps in the protobuf range do. */
  lemma TimestampRoundTripIff(t: Moment)
    requires InWidth(t)
    ensures ParseTimestamp(FormatTimestamp(t)) == Ok(t) <==> Printable(t)
    ensures t.seconds < -62_167_219_200 ==> ParseTimestamp(FormatTimestamp(t)) == Err(BadDate)
  {
    var days, secs := t.seconds / 86_400, t.seconds % 86_400;
    var time := TimeText(secs, t.nanos);
    assert (time + "Z")[..|time|] == time;
    LocalReadsAs(t, "Z", Some("Z"));
    DaysReadAs(days);
    TimeReadsAs(secs, t.nanos);
    FractionFitsIff(t.nanos);
    CombineParts(t, t.seconds, 0, ParseDays(DateText(CivilFromDays(days))), ParseTime(time), FractionFits(t.nanos));
  }

  // -------------------------------------------------------------------------
  // Zone offsets
  // -------------------------------------------------------------------------

  function OffsetText(east: bool, oh: nat, om: nat): string {
    (if east then "+" else "-") + (Pad(2, oh) + [':'] + Pad(2, om))
  }

  function OffsetSeconds(east: bool, oh: nat, om: nat): int {
    if east then oh * 3600 + om * 60 else -(oh * 3600 + om * 60)
  }

  lemma OffsetReadsAs(east: bool, oh: nat, om: nat)
    requires oh <= I64_MAX && om <= I64_MAX
    ensures ParseOffset(Some(OffsetText(east, oh, om))) == Ok(OffsetSeconds(east, oh, om))
  {
    var o := OffsetText(east, oh, om);
    PadText(2, oh);
    PadText(2, om);
    assert o[1..] == Pad(2, oh) + [':'] + Pad(2, om);
    SplitFirst(Pad(2, oh), ':', Pad(2, om));
    SplitAbsent(Pad(2, om), ':');
    ReadsBack(2, oh, BadOffset);
    ReadsBack(2, om, BadOffset);
  }

  lemma TimeHasNoSign(secs: int, nanos: int)
    requires 0 <= secs < 86_400 && nanos >= 0
    ensures forall c | c in TimeText(secs, nanos) :: !IsSign(c)
  {
    PadText(2, secs / 3600);
    PadText(2, secs % 3600 / 60);
    PadText(2, secs % 60);
    FractionText(nanos);
  }

  lemma ZonedTimeSplits(time: string, east: bool, oh: nat, om: nat)
    requires forall c | c in time :: !IsSign(c)
    ensures OffsetSplit(time + OffsetText(east, oh, om)) == (time, Some(OffsetText(east, oh, om)))
  {
    var o := OffsetText(east, oh, om);
    PadText(2, om);
    assert (time + o)[|time + o| - 1] == Pad(2, om)[|Pad(2, om)| - 1];
    assert Pad(2, om)[|Pad(2, om)| - 1] in Pad(2, om);
    AtSignIs(time, o);
  }

  /** Local time with its offset denotes the same instant as UTC text, for every
      offset whose arithmetic fits 64 bits. */
  lemma OffsetMeansUtc(t: Moment, east: bool, oh: nat, om: nat)
    requires InWidth(t) && 0 <= t.nanos < 1_000_000_000
    requires oh * 3600 + om * 60 <= I64_MAX
    requires -62_167_219_200 <= t.seconds + OffsetSeconds(east, oh, om) <= I64_MAX
    ensures var local := Moment(t.seconds + OffsetSeconds(east, oh, om), t.nanos);
            ParseTimestamp(LocalText(local) + OffsetText(east, oh, om)) == Ok(t)
  {
    var local := Moment(t.seconds + OffsetSeconds(east, oh, om), t.nanos);
    var days, secs := local.seconds / 86_400, local.seconds % 86_400;
    var time := TimeText(secs, t.nanos);
    TimeHasNoSign(secs, t.nanos);
    ZonedTimeSplits(time, east, oh, om);
    LocalReadsAs(local, OffsetText(east, oh, om), Some(OffsetText(east, oh, om)));
    DaysReadAs(days);
    TimeReadsAs(secs, t.nanos);
    FractionFitsIff(t.nanos);
    OffsetReadsAs(east, oh, om);
    CombineParts(t, local.seconds, OffsetSeconds(east, oh, om),
                 ParseDays(DateText(CivilFromDays(days))), ParseTime(time), true);
  }

  // -------------------------------------------------------------------------
  // Duration
  // -------------------------------------------------------------------------

  function Abs(n: int): int {
    if n < 0 then -n else n
  }

  /** The sign printed once for both parts. */
  predicate Negative(d: Moment) {
    d.seconds < 0 || (d.seconds == 0 && d.nanos < 0)
  }

  /** The source takes the absolute value of the seconds when there is a fraction. */
  function FormatDuration(d: Moment): string
    requires d.nanos == 0 || d.seconds != I64_MIN
  {
    if d.nanos == 0 then Pad(0, d.seconds) + "s"
    else (if Negative(d) then "-" else "")
         + (Pad(0, Abs(d.seconds)) + ['.'] + FormatFraction(Abs(d.nanos)))
         + "s"
  }

  /** The text without a sign, and the factor it stands for. */
  function StripSign(s: string): (int, string) {
    if s != "" && s[0] == '-' then (-1, s[1..]) else (1, s)
  }

  /** Whole seconds and a fraction, both without the common sign. */
  function ParseMagnitude(s: string): Result<Moment> {
    match SplitOnce(s, '.')
    case None =>
      (match ToI64(s, BadDuration)
       case Err(e) => Err(e)
       case Ok(secs) => Ok(Moment(secs, 0)))
    case Some(p) =>
      match FractionValue(p.1)
      case Err(e) => Err(e)
      case Ok(nanos) =>
        match ToI64(p.0, BadDuration)
        case Err(e) => Err(e)
        case Ok(secs) => Ok(Moment(secs, nanos))
  }

  function Signed(sign: int, r: Result<Moment>): Result<Moment> {
    match r
    case Err(e) => Err(e)
    case Ok(m) => Ok(if sign < 0 then Moment(-m.seconds, -m.nanos) else m)
  }

  function ParseDuration(value: string): Result<Moment> {
    var (sign, rest) := StripSign(value);
    if rest == "" || rest[|rest| - 1] != 's' then Err(MissingSuffix)
    else Signed(sign, ParseMagnitude(rest[..|rest| - 1]))
  }

  /** Unsigned text and the sign come apart again. */
  lemma SignComesOff(neg: bool, m: string)
    requires m != "" && IsDigit(m[0])
    ensures ParseDuration((if neg then "-" else "") + m + "s")
         == Signed(if neg then -1 else 1, ParseMagnitude(m))
  {
    var s := (if neg then "-" else "") + m + "s";
    assert (m + "s")[..|m|] == m;
    if neg {
      assert s[1..] == m + "s";
    } else {
      assert s == m + "s";
    }
  }

  /** Exact below a second and never negative. */
  predicate MagnitudeOk(r: Result<Moment>, secs: int, nanos: int) {
    (r == Ok(Moment(secs, nanos)) <==> nanos < 1_000_000_000)
    && (r.Ok? ==> r.value.seconds == secs && r.value.nanos >= 0)
  }

  lemma MagnitudeReadsAs(secs: nat, nanos: int)
    requires secs <= I64_MAX && 0 < nanos <= -I32_MIN
    ensures MagnitudeOk(ParseMagnitude(Pad(0, secs) + ['.'] + FormatFraction(nanos)), secs, nanos)
  {
    PadText(0, secs);
    ParsePad(0, secs, I64_MIN, I64_MAX);
    SplitFirst(Pad(0, secs), '.', FormatFraction(nanos));
    LongFractionReadsAs(nanos);
  }

  lemma LongFractionReadsAs(n: int)
    requires 0 < n <= -I32_MIN
    ensures var r := FractionValue(FormatFraction(n));
            (r == Ok(n) <==> n < 1_000_000_000) && (r.Ok? ==> r.value >= 0)
  {
    FractionFitsIff(n);
    FractionReadsNonNegative(n);
    if n <= I32_MAX {
      FractionReadsAs(n);
    }
  }

  lemma FractionReadsNonNegative(n: int)
    requires n > 0
    ensures var r := FractionValue(FormatFraction(n)); r.Ok? ==> 0 <= r.value <= I32_MAX
  {
    var s := FormatFraction(n);
    FractionText(n);
    if s != "" && |s| <= 9 {
      ParsePlain(s + Zeros(9 - |s|), Value(s + Zeros(9 - |s|)), I32_MIN, I32_MAX);
      ValueNonNegative(s + Zeros(9 - |s|));
    }
  }

  lemma {:induction false} ValueNonNegative(s: string)
    requires AllDigits(s)
    ensures Value(s) >= 0
  {
    if s == "" {
    } else {
      ValueNonNegative(s[..|s| - 1]);
      assert s[|s| - 1] in s;
    }
  }

  /** Durations whose parts share a sign and whose fraction is below a second. */
  predicate WellFormed(d: Moment) {
    d.seconds != I64_MIN
    && Abs(d.nanos) < 1_000_000_000
    && (d.seconds > 0 ==> d.nanos >= 0)
    && (d.seconds < 0 ==> d.nanos <= 0)
  }

  /** A printed duration parses back to itself exactly when it is well formed. */
  lemma DurationRoundTripIff(d: Moment)
    requires InWidth(d) && (d.nanos == 0 || d.seconds != I64_MIN)
    ensures ParseDuration(FormatDuration(d)) == Ok(d) <==> WellFormed(d)
  {
    if d.nanos == 0 {
      WholeSecondsRoundTrip(d.seconds);
    } else {
      var m := Pad(0, Abs(d.seconds)) + ['.'] + FormatFraction(Abs(d.nanos));
      PadText(0, Abs(d.seconds));
      assert m[0] in Pad(0, Abs(d.seconds));
      SignComesOff(Negative(d), m);
      MagnitudeReadsAs(Abs(d.seconds), Abs(d.nanos));
      SignedMagnitude(d, ParseMagnitude(m));
    }
  }

  lemma SignedMagnitude(d: Moment, r: Result<Moment>)
    requires d.nanos != 0 && d.seconds != I64_MIN
    requires MagnitudeOk(r, Abs(d.seconds), Abs(d.nanos))
    ensures Signed(if Negative(d) then -1 else 1, r) == Ok(d) <==> WellFormed(d)
  {
  }

  lemma WholeSecondsRoundTrip(n: int)
    requires I64_MIN <= n <= I64_MAX
    ensures ParseDuration(FormatDuration(Moment(n, 0)))
         == if n == I64_MIN then Err(BadDuration) else Ok(Moment(n, 0))
  {
    var m := Pad(0, Abs(n));
    PadText(0, Abs(n));
    assert m[0] in m;
    SignComesOff(n < 0, m);
    assert Pad(0, n) == (if n < 0 then "-" else "") + m;
    SplitAbsent(m, '.');
    ParsePad(0, Abs(n), I64_MIN, I64_MAX);
  }
}
