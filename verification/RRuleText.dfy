// The text of a rule: the parser and canonical printer of packages/kernel/src/recurrence/rrule.vo.ts.
module RRuleText {
  import opened Prelude
  import opened CivilDate
  import opened Rules

  // The messages of RecurrenceInvalid, one constructor each.
  datatype Reason =
    | EmptyRule
    | WrongProperty(property: string)
    | NotAPair(segment: string)
    | NoValue(name: string)
    | Repeated(name: string)
    | UnknownPart(name: string)
    | FreqRequired
    | UnknownFreq(value: string)
    | BadInterval
    | BadCount
    | BadUntil
    | CountAndUntil
    | BadWeekday(item: string)
    | OrdinalRange(item: string)
    | OrdinalFrequency
    | MonthlyOrdinal
    | MonthDayWeekly
    | BadMonthDay(item: string)
    | MonthDayRange
    | BadMonth(item: string)
    | BadWkst(value: string)

  datatype RuleError = RecurrenceUnsupported(part: string) | RecurrenceInvalid(reason: Reason)

  type Parsed<T> = Result<T, RuleError>

  function Invalid<T>(reason: Reason): Parsed<T> { Err(RecurrenceInvalid(reason)) }

  // --- Strings -----------------------------------------------------------------------------------------------------

  predicate IsDigit(c: char) { '0' <= c <= '9' }

  predicate IsUpper(c: char) { 'A' <= c <= 'Z' }

  predicate AllDigits(s: string) { forall i :: 0 <= i < |s| ==> IsDigit(s[i]) }

  // String.prototype.trim's white space.
  predicate IsSpace(c: char) {
    c as int in {0x9, 0xA, 0xB, 0xC, 0xD, 0x20, 0xA0, 0x1680, 0x2028, 0x2029, 0x202F, 0x205F, 0x3000, 0xFEFF}
    || 0x2000 <= c as int <= 0x200A
  }

  function TrimStart(s: string): string { if s != "" && IsSpace(s[0]) then TrimStart(s[1..]) else s }

  function TrimEnd(s: string): string { if s != "" && IsSpace(s[|s| - 1]) then TrimEnd(s[..|s| - 1]) else s }

  function Trim(s: string): string { TrimEnd(TrimStart(s)) }

  function UpperChar(c: char): char { if 'a' <= c <= 'z' then c - 'a' + 'A' else c }

  function Upper(s: string): (r: string)
    ensures |r| == |s| && forall i :: 0 <= i < |s| ==> r[i] == UpperChar(s[i])
  {
    if s == "" then "" else [UpperChar(s[0])] + Upper(s[1..])
  }

  function Split(s: string, sep: char): (r: seq<string>)
    ensures |r| >= 1
  {
    if s == "" then [""]
    else if s[0] == sep then [""] + Split(s[1..], sep)
    else
      var rest := Split(s[1..], sep);
      [[s[0]] + rest[0]] + rest[1..]
  }

  function Join(parts: seq<string>, sep: char): string {
    if parts == [] then ""
    else if |parts| == 1 then parts[0]
    else parts[0] + [sep] + Join(parts[1..], sep)
  }

  // The position of the first `c`, or the length when there is none.
  function IndexOf(s: string, c: char): (i: nat)
    ensures i <= |s|
  {
    if s == "" || s[0] == c then 0 else 1 + IndexOf(s[1..], c)
  }

  function NumberOf(s: string): (n: int)
    requires AllDigits(s)
    ensures n >= 0
  {
    if s == "" then 0 else 10 * NumberOf(s[..|s| - 1]) + (s[|s| - 1] - '0') as int
  }

  function DigitChar(d: int): (c: char)
    requires 0 <= d < 10
    ensures IsDigit(c) && (c - '0') as int == d
  {
    '0' + d as char
  }

  function DigitsOf(n: int): (s: string)
    requires n >= 0
    ensures AllDigits(s) && |s| >= 1
  {
    if n < 10 then [DigitChar(n)] else DigitsOf(n / 10) + [DigitChar(n % 10)]
  }

  function StringOf(n: int): string { if n < 0 then "-" + DigitsOf(-n) else DigitsOf(n) }

  function Pad(n: int, width: nat): string
    requires n >= 0
  {
    PadStart(DigitsOf(n), width)
  }

  function PadStart(s: string, width: nat): string
    decreases width - |s|
  {
    if |s| >= width then s else PadStart("0" + s, width)
  }

  // --- Values ------------------------------------------------------------------------------------------------------

  function FreqName(f: Frequency): string {
    match f case Daily => "DAILY" case Weekly => "WEEKLY" case Monthly => "MONTHLY" case Yearly => "YEARLY"
  }

  function ParseFreq(v: string): Option<Frequency> {
    if v == "DAILY" then Some(Daily)
    else if v == "WEEKLY" then Some(Weekly)
    else if v == "MONTHLY" then Some(Monthly)
    else if v == "YEARLY" then Some(Yearly)
    else None
  }

  function WeekdayName(w: Weekday): (s: string)
    ensures |s| == 2
  {
    match w
    case MO => "MO" case TU => "TU" case WE => "WE" case TH => "TH" case FR => "FR" case SA => "SA" case SU => "SU"
  }

  function ParseWeekday(v: string): Option<Weekday> {
    if v == "MO" then Some(MO) else if v == "TU" then Some(TU) else if v == "WE" then Some(WE)
    else if v == "TH" then Some(TH) else if v == "FR" then Some(FR) else if v == "SA" then Some(SA)
    else if v == "SU" then Some(SU) else None
  }

  function ParsePositiveInteger(v: string): Option<int> {
    if v != "" && AllDigits(v) && NumberOf(v) >= 1 then Some(NumberOf(v)) else None
  }

  // An optional sign and one or two digits.
  function ParseSigned(v: string): Option<int> {
    var digits := if v != "" && (v[0] == '+' || v[0] == '-') then v[1..] else v;
    if 1 <= |digits| <= 2 && AllDigits(digits) then
      Some(if v[0] == '-' then -NumberOf(digits) else NumberOf(digits))
    else None
  }

  // Date.UTC in milliseconds, with its reading of the years 0 to 99.
  function DateUtc(l: LocalDateTime): int
    requires 1 <= l.date.month <= 12
  {
    1000 * (86400 * DayNumber(l.date.(year := CenturyYear(l.date.year))) + SecondOfDay(l))
  }

  function ParseUntil(v: string): Option<Until> {
    if |v| < 8 || !AllDigits(v[..8]) then None
    else
      var date := LocalDate(NumberOf(v[..4]), NumberOf(v[4..6]), NumberOf(v[6..8]));
      var hasTime := 15 <= |v| <= 16 && v[8] == 'T' && AllDigits(v[9..15]) && (|v| == 16 ==> v[15] == 'Z');
      if |v| != 8 && !hasTime then None
      else if date.month < 1 || date.month > 12 || date.day < 1 then None
      else if date.day > DaysInMonth(date.year, date.month) then None
      else if |v| == 8 then Some(UntilDate(date))
      else
        var time := v[9..15];
        var local := LocalDateTime(date, NumberOf(time[..2]), NumberOf(time[2..4]), NumberOf(time[4..6]));
        if local.hour > 23 || local.minute > 59 || local.second > 59 then None
        else if |v| == 16 then Some(UntilUtc(DateUtc(local)))
        else Some(UntilLocal(local))
  }

  function ParseByDay(freq: Frequency, item: string): Parsed<ByDay> {
    if |item| < 2 then Invalid(BadWeekday(item))
    else
      var number := item[..|item| - 2];
      var weekday := ParseWeekday(item[|item| - 2..]);
      if weekday.None? || (number != "" && ParseSigned(number).None?) then Invalid(BadWeekday(item))
      else if number == "" then Ok(ByDay(weekday.value, None))
      else
        var ordinal := ParseSigned(number).value;
        if ordinal == 0 || ordinal > 53 || ordinal < -53 then Invalid(OrdinalRange(item))
        else if freq.Daily? || freq.Weekly? then Invalid(OrdinalFrequency)
        else if freq.Monthly? && (ordinal > 5 || ordinal < -5) then Invalid(MonthlyOrdinal)
        else Ok(ByDay(weekday.value, Some(ordinal)))
  }

  function ParseMonthDay(item: string): Parsed<int> {
    var day := ParseSigned(item);
    if day.None? then Invalid(BadMonthDay(item))
    else if day.value == 0 || day.value > 31 || day.value < -31 then Invalid(MonthDayRange)
    else Ok(day.value)
  }

  function ParseMonth(item: string): Parsed<int> {
    if 1 <= |item| <= 2 && AllDigits(item) && 1 <= NumberOf(item) <= 12 then Ok(NumberOf(item))
    else Invalid(BadMonth(item))
  }

  // A list value, item by item, up to the first error.
  function ParseByDays(freq: Frequency, items: seq<string>): Parsed<seq<ByDay>> {
    if items == [] then Ok([])
    else
      match ParseByDay(freq, items[0])
      case Err(e) => Err(e)
      case Ok(b) => (match ParseByDays(freq, items[1..]) case Err(e) => Err(e) case Ok(rest) => Ok([b] + rest))
  }

  function ParseMonthDays(items: seq<string>): Parsed<seq<int>> {
    if items == [] then Ok([])
    else
      match ParseMonthDay(items[0])
      case Err(e) => Err(e)
      case Ok(d) => (match ParseMonthDays(items[1..]) case Err(e) => Err(e) case Ok(rest) => Ok([d] + rest))
  }

  function ParseMonths(items: seq<string>): Parsed<seq<int>> {
    if items == [] then Ok([])
    else
      match ParseMonth(items[0])
      case Err(e) => Err(e)
      case Ok(m) => (match ParseMonths(items[1..]) case Err(e) => Err(e) case Ok(rest) => Ok([m] + rest))
  }

  // --- Parts -------------------------------------------------------------------------------------------------------

  datatype Part = Part(name: string, value: string)

  const UNSUPPORTED_PARTS: seq<string> :=
    ["BYSETPOS", "BYWEEKNO", "BYYEARDAY", "BYHOUR", "BYMINUTE", "BYSECOND", "RDATE", "EXDATE", "EXRULE"]

  const SUPPORTED_PARTS: seq<string> :=
    ["FREQ", "INTERVAL", "COUNT", "UNTIL", "BYDAY", "BYMONTHDAY", "BYMONTH", "WKST"]

  // A Map keeps its keys in the order they were set.
  function Lookup(seen: seq<Part>, name: string): Option<string> {
    if seen == [] then None else if seen[0].name == name then Some(seen[0].value) else Lookup(seen[1..], name)
  }

  function ParseSegment(segment: string, seen: seq<Part>): Parsed<Part> {
    var equals := IndexOf(segment, '=');
    if equals == 0 || equals == |segment| then Invalid(NotAPair(segment))
    else
      var name := Upper(segment[..equals]);
      var value := Upper(segment[equals + 1..]);
      if value == "" then Invalid(NoValue(name))
      else if Lookup(seen, name).Some? then Invalid(Repeated(name))
      else Ok(Part(name, value))
  }

  function ParseSegments(segments: seq<string>, seen: seq<Part>): Parsed<seq<Part>>
    decreases |segments|
  {
    if segments == [] then Ok(seen)
    else
      match ParseSegment(segments[0], seen)
      case Err(e) => Err(e)
      case Ok(p) => ParseSegments(segments[1..], seen + [p])
  }

  function FirstUnsupported(seen: seq<Part>): Option<string> {
    if seen == [] then None
    else if seen[0].name in UNSUPPORTED_PARTS then Some(seen[0].name)
    else FirstUnsupported(seen[1..])
  }

  function FirstUnknown(seen: seq<Part>): Option<string> {
    if seen == [] then None
    else if seen[0].name !in SUPPORTED_PARTS then Some(seen[0].name)
    else FirstUnknown(seen[1..])
  }

  // The property name before a colon, if the text starts with one.
  function LetterRun(s: string): (n: nat)
    ensures n <= |s|
  {
    if s != "" && (IsUpper(UpperChar(s[0])) || s[0] == '-') then 1 + LetterRun(s[1..]) else 0
  }

  // The text after its property name, if the property is RRULE.
  function StripProperty(body: string): Parsed<string> {
    var n := LetterRun(body);
    if n == 0 || n == |body| || body[n] != ':' then Ok(body)
    else
      var property := Upper(body[..n]);
      if property == "RDATE" || property == "EXDATE" || property == "EXRULE" then Err(RecurrenceUnsupported(property))
      else if property != "RRULE" then Invalid(WrongProperty(property))
      else Ok(body[n + 1..])
  }

  function CheckParts(seen: seq<Part>): Parsed<Frequency> {
    var unsupported := FirstUnsupported(seen);
    var unknown := FirstUnknown(seen);
    if unsupported.Some? then Err(RecurrenceUnsupported(unsupported.value))
    else if unknown.Some? then Invalid(UnknownPart(unknown.value))
    else
      match Lookup(seen, "FREQ")
      case None => Invalid(FreqRequired)
      case Some(v) =>
        if v == "HOURLY" || v == "MINUTELY" || v == "SECONDLY" then Err(RecurrenceUnsupported("FREQ=" + v))
        else
          match ParseFreq(v)
          case None => Invalid(UnknownFreq(v))
          case Some(f) => Ok(f)
  }

  function OptionalInterval(seen: seq<Part>): Parsed<int> {
    match Lookup(seen, "INTERVAL")
    case None => Ok(1)
    case Some(v) => (match ParsePositiveInteger(v) case None => Invalid(BadInterval) case Some(n) => Ok(n))
  }

  function OptionalCount(seen: seq<Part>): Parsed<Option<int>> {
    match Lookup(seen, "COUNT")
    case None => Ok(None)
    case Some(v) => (match ParsePositiveInteger(v) case None => Invalid(BadCount) case Some(n) => Ok(Some(n)))
  }

  function OptionalUntil(seen: seq<Part>): Parsed<Option<Until>> {
    match Lookup(seen, "UNTIL")
    case None => Ok(None)
    case Some(v) => (match ParseUntil(v) case None => Invalid(BadUntil) case Some(u) => Ok(Some(u)))
  }

  function OptionalByDay(seen: seq<Part>, freq: Frequency): Parsed<seq<ByDay>> {
    match Lookup(seen, "BYDAY") case None => Ok([]) case Some(v) => ParseByDays(freq, Split(v, ','))
  }

  function OptionalByMonthDay(seen: seq<Part>, freq: Frequency): Parsed<seq<int>> {
    match Lookup(seen, "BYMONTHDAY")
    case None => Ok([])
    case Some(v) => if freq.Weekly? then Invalid(MonthDayWeekly) else ParseMonthDays(Split(v, ','))
  }

  function OptionalByMonth(seen: seq<Part>): Parsed<seq<int>> {
    match Lookup(seen, "BYMONTH") case None => Ok([]) case Some(v) => ParseMonths(Split(v, ','))
  }

  function OptionalWkst(seen: seq<Part>): Parsed<Weekday> {
    match Lookup(seen, "WKST")
    case None => Ok(MO)
    case Some(v) => (match ParseWeekday(v) case None => Invalid(BadWkst(v)) case Some(w) => Ok(w))
  }

  // The checks after the parts are known to be supported, in the source's order.
  function ParseParts(seen: seq<Part>): Parsed<Rule> {
    match CheckParts(seen) case Err(e) => Err(e) case Ok(freq) =>
    match OptionalInterval(seen) case Err(e) => Err(e) case Ok(interval) =>
    match OptionalCount(seen) case Err(e) => Err(e) case Ok(count) =>
    match OptionalUntil(seen) case Err(e) => Err(e) case Ok(until) =>
    if count.Some? && until.Some? then Invalid(CountAndUntil) else
    match OptionalByDay(seen, freq) case Err(e) => Err(e) case Ok(byDay) =>
    match OptionalByMonthDay(seen, freq) case Err(e) => Err(e) case Ok(byMonthDay) =>
    match OptionalByMonth(seen) case Err(e) => Err(e) case Ok(byMonth) =>
    match OptionalWkst(seen) case Err(e) => Err(e) case Ok(wkst) =>
    Ok(Rule(freq, interval, count, until, byDay, byMonthDay, byMonth, wkst))
  }

  function ParseRule(text: string): Parsed<Rule> {
    var body := Trim(text);
    if body == "" then Invalid(EmptyRule)
    else
      match StripProperty(body) case Err(e) => Err(e) case Ok(body) =>
      match ParseSegments(Split(body, ';'), []) case Err(e) => Err(e) case Ok(seen) =>
      ParseParts(seen)
  }

  // --- The source's parser, with its loops -------------------------------------------------------------------------

  method ReadSegments(segments: seq<string>) returns (r: Parsed<seq<Part>>)
    ensures r == ParseSegments(segments, [])
  {
    var seen: seq<Part> := [];
    for i := 0 to |segments|
      invariant ParseSegments(segments[i..], seen) == ParseSegments(segments, [])
    {
      assert segments[i..][1..] == segments[i + 1..];
      match ParseSegment(segments[i], seen) {
        case Err(e) => return Err(e);
        case Ok(p) => seen := seen + [p];
      }
    }
    return Ok(seen);
  }

  method ReadByDays(freq: Frequency, items: seq<string>) returns (r: Parsed<seq<ByDay>>)
    ensures r == ParseByDays(freq, items)
  {
    var byDay: seq<ByDay> := [];
    assert items[0..] == items && items[|items|..] == [] && forall rest: seq<ByDay> :: byDay + rest == rest;
    for i := 0 to |items|
      invariant ParseByDays(freq, items) ==
                match ParseByDays(freq, items[i..]) case Err(e) => Err(e) case Ok(rest) => Ok(byDay + rest)
    {
      assert items[i..][1..] == items[i + 1..];
      match ParseByDay(freq, items[i]) {
        case Err(e) => return Err(e);
        case Ok(b) =>
          assert forall rest :: byDay + ([b] + rest) == (byDay + [b]) + rest;
          byDay := byDay + [b];
      }
    }
    assert byDay + [] == byDay;
    return Ok(byDay);
  }

  method ReadMonthDays(items: seq<string>) returns (r: Parsed<seq<int>>)
    ensures r == ParseMonthDays(items)
  {
    var byMonthDay: seq<int> := [];
    assert items[0..] == items && items[|items|..] == [] && forall rest: seq<int> :: byMonthDay + rest == rest;
    for i := 0 to |items|
      invariant ParseMonthDays(items) ==
                match ParseMonthDays(items[i..]) case Err(e) => Err(e) case Ok(rest) => Ok(byMonthDay + rest)
    {
      assert items[i..][1..] == items[i + 1..];
      match ParseMonthDay(items[i]) {
        case Err(e) => return Err(e);
        case Ok(d) =>
          assert forall rest :: byMonthDay + ([d] + rest) == (byMonthDay + [d]) + rest;
          byMonthDay := byMonthDay + [d];
      }
    }
    assert byMonthDay + [] == byMonthDay;
    return Ok(byMonthDay);
  }

  method ReadMonths(items: seq<string>) returns (r: Parsed<seq<int>>)
    ensures r == ParseMonths(items)
  {
    var byMonth: seq<int> := [];
    assert items[0..] == items && items[|items|..] == [] && forall rest: seq<int> :: byMonth + rest == rest;
    for i := 0 to |items|
      invariant ParseMonths(items) ==
                match ParseMonths(items[i..]) case Err(e) => Err(e) case Ok(rest) => Ok(byMonth + rest)
    {
      assert items[i..][1..] == items[i + 1..];
      match ParseMonth(items[i]) {
        case Err(e) => return Err(e);
        case Ok(m) =>
          assert forall rest :: byMonth + ([m] + rest) == (byMonth + [m]) + rest;
          byMonth := byMonth + [m];
      }
    }
    assert byMonth + [] == byMonth;
    return Ok(byMonth);
  }

  method Parse(text: string) returns (r: Parsed<Rule>)
    ensures r == ParseRule(text)
  {
    hide ParseSegments, ParseByDays, ParseMonthDays, ParseMonths, ParseUntil, Split, Trim, Lookup, CheckParts;
    var body := Trim(text);
    if body == "" { return Invalid(EmptyRule); }
    var stripped := StripProperty(body);
    if stripped.Err? { return Err(stripped.error); }
    var read := ReadSegments(Split(stripped.value, ';'));
    if read.Err? { return Err(read.error); }
    var seen := read.value;
    var freq := CheckParts(seen);
    if freq.Err? { return Err(freq.error); }
    var interval := OptionalInterval(seen);
    if interval.Err? { return Err(interval.error); }
    var count := OptionalCount(seen);
    if count.Err? { return Err(count.error); }
    var until := OptionalUntil(seen);
    if until.Err? { return Err(until.error); }
    if count.value.Some? && until.value.Some? { return Invalid(CountAndUntil); }

    var byDay: Parsed<seq<ByDay>> := Ok([]);
    var byDayValue := Lookup(seen, "BYDAY");
    if byDayValue.Some? { byDay := ReadByDays(freq.value, Split(byDayValue.value, ',')); }
    if byDay.Err? { return Err(byDay.error); }

    var byMonthDay: Parsed<seq<int>> := Ok([]);
    var byMonthDayValue := Lookup(seen, "BYMONTHDAY");
    if byMonthDayValue.Some? {
      if freq.value.Weekly? { return Invalid(MonthDayWeekly); }
      byMonthDay := ReadMonthDays(Split(byMonthDayValue.value, ','));
    }
    if byMonthDay.Err? { return Err(byMonthDay.error); }

    var byMonth: Parsed<seq<int>> := Ok([]);
    var byMonthValue := Lookup(seen, "BYMONTH");
    if byMonthValue.Some? { byMonth := ReadMonths(Split(byMonthValue.value, ',')); }
    if byMonth.Err? { return Err(byMonth.error); }

    var wkst := OptionalWkst(seen);
    if wkst.Err? { return Err(wkst.error); }
    return Ok(Rule(freq.value, interval.value, count.value, until.value,
                   byDay.value, byMonthDay.value, byMonth.value, wkst.value));
  }

  // --- The printer -------------------------------------------------------------------------------------------------

  function PrintDate(d: LocalDate): string
    requires d.year >= 0 && d.month >= 0 && d.day >= 0
  {
    Pad(d.year, 4) + Pad(d.month, 2) + Pad(d.day, 2)
  }

  function PrintTime(l: LocalDateTime): string
    requires TimeOfDay(l)
  {
    Pad(l.hour, 2) + Pad(l.minute, 2) + Pad(l.second, 2)
  }

  function PrintUntil(u: Until): string
    requires UntilAllowed(u)
  {
    match u
    case UntilDate(d) => PrintDate(d)
    case UntilUtc(t) => var l := FromLocalSeconds(t / 1000); PrintDate(l.date) + "T" + PrintTime(l) + "Z"
    case UntilLocal(l) => PrintDate(l.date) + "T" + PrintTime(l)
  }

  function PrintInts(values: seq<int>): (r: seq<string>)
    ensures |r| == |values| && forall i :: 0 <= i < |r| ==> r[i] == StringOf(values[i])
  {
    seq(|values|, i requires 0 <= i < |values| => StringOf(values[i]))
  }

  function PrintByDay(b: ByDay): string {
    (match b.ordinal case None => "" case Some(o) => StringOf(o)) + WeekdayName(b.weekday)
  }

  function PrintByDays(byDay: seq<ByDay>): (r: seq<string>)
    ensures |r| == |byDay| && forall i :: 0 <= i < |r| ==> r[i] == PrintByDay(byDay[i])
  {
    seq(|byDay|, i requires 0 <= i < |byDay| => PrintByDay(byDay[i]))
  }

  // The parts in their fixed order, those at their defaults left out.
  datatype Field = Field(name: string, value: Option<string>)

  function Fields(r: Rule): seq<Field>
    requires WellFormed(r)
  {
    [ Field("FREQ", Some(FreqName(r.freq))),
      Field("INTERVAL", if r.interval != 1 then Some(StringOf(r.interval)) else None),
      Field("COUNT", match r.count case None => None case Some(n) => Some(StringOf(n))),
      Field("UNTIL", match r.until case None => None case Some(u) => Some(PrintUntil(u))),
      Field("BYMONTH", if r.byMonth != [] then Some(Join(PrintInts(r.byMonth), ',')) else None),
      Field("BYMONTHDAY", if r.byMonthDay != [] then Some(Join(PrintInts(r.byMonthDay), ',')) else None),
      Field("BYDAY", if r.byDay != [] then Some(Join(PrintByDays(r.byDay), ',')) else None),
      Field("WKST", if r.wkst != MO then Some(WeekdayName(r.wkst)) else None) ]
  }

  function Present(fields: seq<Field>): seq<Part> {
    if fields == [] then []
    else (if fields[0].value.Some? then [Part(fields[0].name, fields[0].value.value)] else []) + Present(fields[1..])
  }

  function PartTexts(parts: seq<Part>): (r: seq<string>)
    ensures |r| == |parts| && forall i :: 0 <= i < |r| ==> r[i] == parts[i].name + "=" + parts[i].value
  {
    seq(|parts|, i requires 0 <= i < |parts| => parts[i].name + "=" + parts[i].value)
  }

  function PrintRule(r: Rule): string
    requires WellFormed(r)
  {
    Join(PartTexts(Present(Fields(r))), ';')
  }

  predicate RulesEqual(a: Rule, b: Rule)
    requires WellFormed(a) && WellFormed(b)
  {
    PrintRule(a) == PrintRule(b)
  }
}
