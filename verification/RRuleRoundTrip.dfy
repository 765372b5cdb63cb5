// The printer and the parser undo each other.
module RRuleRoundTrip {
  import opened Prelude
  import opened CivilDate
  import opened Rules
  import opened RRuleText

  // --- Numbers -----------------------------------------------------------------------------------------------------

  lemma {:induction false} DigitsReadBack(n: int)
    requires n >= 0
    ensures NumberOf(DigitsOf(n)) == n
  {
    if n >= 10 {
      DigitsReadBack(n / 10);
      var s := DigitsOf(n);
      assert s[..|s| - 1] == DigitsOf(n / 10) && s[|s| - 1] == DigitChar(n % 10);
    } else {
      assert [DigitChar(n)][..0] == "";
    }
  }

  lemma {:induction false} LeadingZero(s: string)
    requires AllDigits(s)
    ensures AllDigits("0" + s) && NumberOf("0" + s) == NumberOf(s)
  {
    if s == "" {
      assert "0" + s == "0" && "0"[..0] == "";
    } else {
      LeadingZero(s[..|s| - 1]);
      assert ("0" + s)[..|s|] == "0" + s[..|s| - 1] && ("0" + s)[|s|] == s[|s| - 1];
    }
  }

  lemma {:induction false} PaddingReadsBack(s: string, width: nat)
    requires AllDigits(s)
    ensures AllDigits(PadStart(s, width)) && NumberOf(PadStart(s, width)) == NumberOf(s)
    ensures |PadStart(s, width)| == if |s| >= width then |s| else width
    decreases width - |s|
  {
    if |s| < width {
      LeadingZero(s);
      PaddingReadsBack("0" + s, width);
    }
  }

  function Pow10(k: nat): int { if k == 0 then 1 else 10 * Pow10(k - 1) }

  lemma {:induction false} NumberIsBounded(s: string)
    requires AllDigits(s)
    ensures NumberOf(s) < Pow10(|s|)
  {
    if s != "" { NumberIsBounded(s[..|s| - 1]); }
  }

  lemma {:induction false} DigitsAreFew(n: int, k: nat)
    requires 0 <= n < Pow10(k) && k >= 1
    ensures |DigitsOf(n)| <= k
  {
    if n >= 10 {
      assert k > 1;
      DigitsAreFew(n / 10, k - 1);
    }
  }

  lemma SmallPowers()
    ensures Pow10(2) == 100 && Pow10(4) == 10000
  {
    assert Pow10(1) == 10;
    assert Pow10(3) == 10 * Pow10(2);
  }

  lemma PadReadsBack(n: int, width: nat)
    requires 0 <= n < Pow10(width) && width >= 1
    ensures AllDigits(Pad(n, width)) && |Pad(n, width)| == width && NumberOf(Pad(n, width)) == n
  {
    DigitsReadBack(n);
    DigitsAreFew(n, width);
    PaddingReadsBack(DigitsOf(n), width);
  }

  lemma PositiveReadsBack(n: int)
    requires n >= 1
    ensures ParsePositiveInteger(StringOf(n)) == Some(n)
  {
    DigitsReadBack(n);
  }

  lemma SignedReadsBack(n: int)
    requires -99 <= n <= 99
    ensures ParseSigned(StringOf(n)) == Some(n)
  {
    var m := if n < 0 then -n else n;
    SmallPowers();
    DigitsReadBack(m);
    DigitsAreFew(m, 2);
    if n < 0 { assert StringOf(n)[1..] == DigitsOf(m); }
  }

  // --- UNTIL -------------------------------------------------------------------------------------------------------

  lemma DateText(d: LocalDate)
    requires RealDate(d)
    ensures var t := PrintDate(d);
            && |t| == 8 && AllDigits(t)
            && NumberOf(t[..4]) == d.year && NumberOf(t[4..6]) == d.month && NumberOf(t[6..8]) == d.day
  {
    hide Pad, NumberOf, Pow10, DaysInMonth;
    SmallPowers();
    MonthsAreShort(d.year, d.month);
    PadReadsBack(d.year, 4);
    PadReadsBack(d.month, 2);
    PadReadsBack(d.day, 2);
    var t := PrintDate(d);
    assert t[..4] == Pad(d.year, 4) && t[4..6] == Pad(d.month, 2) && t[6..8] == Pad(d.day, 2);
  }

  lemma MonthsAreShort(y: int, m: int)
    requires 1 <= m <= 12
    ensures DaysInMonth(y, m) <= 31
  {}

  lemma TimeText(l: LocalDateTime)
    requires TimeOfDay(l)
    ensures var t := PrintTime(l);
            && |t| == 6 && AllDigits(t)
            && NumberOf(t[..2]) == l.hour && NumberOf(t[2..4]) == l.minute && NumberOf(t[4..6]) == l.second
  {
    hide Pad, NumberOf, Pow10;
    SmallPowers();
    PadReadsBack(l.hour, 2);
    PadReadsBack(l.minute, 2);
    PadReadsBack(l.second, 2);
    var t := PrintTime(l);
    assert t[..2] == Pad(l.hour, 2) && t[2..4] == Pad(l.minute, 2) && t[4..6] == Pad(l.second, 2);
  }

  lemma LocalText(l: LocalDateTime, zulu: bool)
    requires RealDate(l.date) && TimeOfDay(l)
    ensures ParseUntil(PrintDate(l.date) + "T" + PrintTime(l) + (if zulu then "Z" else "")) ==
            Some(if zulu then UntilUtc(DateUtc(l)) else UntilLocal(l))
  {
    hide PrintDate, PrintTime, NumberOf, DaysInMonth, DateUtc;
    DateText(l.date);
    TimeText(l);
    var date, time := PrintDate(l.date), PrintTime(l);
    var v := date + "T" + time + (if zulu then "Z" else "");
    assert v[..8] == date && v[8] == 'T' && v[9..15] == time;
    assert v[..4] == date[..4] && v[4..6] == date[4..6] && v[6..8] == date[6..8];
  }

  // A UTC time prints as the fields of its instant, and those fields denote it again.
  lemma UtcFields(t: int)
    requires UntilAllowed(UntilUtc(t))
    ensures var l := FromLocalSeconds(t / 1000); RealDate(l.date) && TimeOfDay(l) && DateUtc(l) == t
  {
    hide DayNumber, FromLocalSeconds, MonthLength;
    var l := FromLocalSeconds(t / 1000);
    MonthLengthsAgree(l.date.year, l.date.month);
  }

  lemma UntilReadsBack(u: Until)
    requires UntilAllowed(u)
    ensures ParseUntil(PrintUntil(u)) == Some(u)
  {
    hide PrintDate, PrintTime, NumberOf, DaysInMonth, DateUtc, FromLocalSeconds;
    match u
    case UntilDate(d) =>
      DateText(d);
      assert PrintDate(d)[..8] == PrintDate(d);
    case UntilUtc(t) =>
      UtcFields(t);
      LocalText(FromLocalSeconds(t / 1000), true);
    case UntilLocal(l) =>
      LocalText(l, false);
      assert PrintDate(l.date) + "T" + PrintTime(l) + "" == PrintDate(l.date) + "T" + PrintTime(l);
  }

  lemma FourDigits(s: string)
    requires AllDigits(s) && |s| == 4
    ensures 0 <= NumberOf(s) < 10000
  {
    SmallPowers();
    NumberIsBounded(s);
  }

  lemma UntilIsAllowed(v: string)
    requires ParseUntil(v).Some?
    ensures UntilAllowed(ParseUntil(v).value)
  {
    hide NumberOf, DaysInMonth, DateUtc, FromLocalSeconds;
    FourDigits(v[..4]);
    match ParseUntil(v).value
    case UntilDate(_) =>
    case UntilLocal(_) =>
    case UntilUtc(_) =>
      var time := v[9..15];
      var l := LocalDateTime(LocalDate(NumberOf(v[..4]), NumberOf(v[4..6]), NumberOf(v[6..8])),
                             NumberOf(time[..2]), NumberOf(time[2..4]), NumberOf(time[4..6]));
      DateUtcIsAllowed(l);
  }

  lemma DateUtcIsAllowed(l: LocalDateTime)
    requires RealDate(l.date) && TimeOfDay(l)
    ensures UntilAllowed(UntilUtc(DateUtc(l)))
  {
    hide DayNumber, FromLocalSeconds, MonthLength;
    var d := l.date.(year := CenturyYear(l.date.year));
    var m := FromLocalSeconds(DateUtc(l) / 1000);
    DayNumbersOrderDates(m.date, d);
  }

  // --- Lists -------------------------------------------------------------------------------------------------------

  ghost predicate Without(s: string, c: char) { forall i :: 0 <= i < |s| ==> s[i] != c }

  lemma {:induction false} SplitsHere(s: string, sep: char, rest: string)
    requires Without(s, sep)
    ensures Split(s, sep) == [s]
    ensures Split(s + [sep] + rest, sep) == [s] + Split(rest, sep)
  {
    if s == "" {
      assert s + [sep] + rest == [sep] + rest && ([sep] + rest)[1..] == rest;
    } else {
      SplitsHere(s[1..], sep, rest);
      assert (s + [sep] + rest)[1..] == s[1..] + [sep] + rest;
      assert [s[0]] + s[1..] == s;
    }
  }

  lemma {:induction false} SplitUndoesJoin(parts: seq<string>, sep: char)
    requires parts != [] && forall i :: 0 <= i < |parts| ==> Without(parts[i], sep)
    ensures Split(Join(parts, sep), sep) == parts
  {
    if |parts| == 1 {
      SplitsHere(parts[0], sep, "");
    } else {
      SplitsHere(parts[0], sep, Join(parts[1..], sep));
      SplitUndoesJoin(parts[1..], sep);
    }
  }

  // The characters of a printed value.
  predicate PlainChar(c: char) { IsDigit(c) || IsUpper(c) || c == ',' || c == '-' }

  ghost predicate Plain(s: string) { s != "" && forall i :: 0 <= i < |s| ==> PlainChar(s[i]) }

  lemma NumbersArePlain(n: int)
    ensures Plain(StringOf(n)) && Without(StringOf(n), ',')
  {}

  lemma ByDayIsPlain(b: ByDay)
    ensures Plain(PrintByDay(b)) && Without(PrintByDay(b), ',')
  {
    if b.ordinal.Some? { NumbersArePlain(b.ordinal.value); }
  }

  lemma {:induction false} JoinIsPlain(parts: seq<string>)
    requires parts != [] && forall i :: 0 <= i < |parts| ==> Plain(parts[i])
    ensures Plain(Join(parts, ','))
  {
    if |parts| > 1 { JoinIsPlain(parts[1..]); }
  }

  lemma ByDayReadsBack(freq: Frequency, b: ByDay)
    requires b.ordinal.Some? ==> OrdinalAllowed(freq, b.ordinal.value)
    ensures ParseByDay(freq, PrintByDay(b)) == Ok(b)
  {
    hide StringOf, ParseSigned, WeekdayName, ParseWeekday, Plain, Without;
    WeekdayReadsBack(b.weekday);
    var item := PrintByDay(b);
    assert item[|item| - 2..] == WeekdayName(b.weekday);
    if b.ordinal.Some? {
      SignedReadsBack(b.ordinal.value);
      assert item[..|item| - 2] == StringOf(b.ordinal.value);
      NumbersArePlain(b.ordinal.value);
      NotEmpty(item[..|item| - 2]);
    }
  }

  lemma NotEmpty(s: string)
    requires Plain(s)
    ensures s != ""
  {}

  lemma {:induction false} ByDaysReadBack(freq: Frequency, byDay: seq<ByDay>)
    requires forall i :: 0 <= i < |byDay| && byDay[i].ordinal.Some? ==> OrdinalAllowed(freq, byDay[i].ordinal.value)
    ensures ParseByDays(freq, PrintByDays(byDay)) == Ok(byDay)
  {
    hide PrintByDay, ParseByDay, OrdinalAllowed;
    if byDay != [] {
      ByDayReadsBack(freq, byDay[0]);
      ByDaysReadBack(freq, byDay[1..]);
      assert PrintByDays(byDay)[1..] == PrintByDays(byDay[1..]) && [byDay[0]] + byDay[1..] == byDay;
    }
  }

  lemma {:induction false} MonthDaysReadBack(days: seq<int>)
    requires forall i :: 0 <= i < |days| ==> days[i] != 0 && -31 <= days[i] <= 31
    ensures ParseMonthDays(PrintInts(days)) == Ok(days)
  {
    hide StringOf, ParseSigned;
    if days != [] {
      SignedReadsBack(days[0]);
      MonthDaysReadBack(days[1..]);
      assert PrintInts(days)[1..] == PrintInts(days[1..]) && [days[0]] + days[1..] == days;
    }
  }

  lemma {:induction false} MonthsReadBack(months: seq<int>)
    requires forall i :: 0 <= i < |months| ==> 1 <= months[i] <= 12
    ensures ParseMonths(PrintInts(months)) == Ok(months)
  {
    if months != [] {
      SmallPowers();
      DigitsReadBack(months[0]);
      DigitsAreFew(months[0], 2);
      MonthsReadBack(months[1..]);
      assert PrintInts(months)[1..] == PrintInts(months[1..]) && [months[0]] + months[1..] == months;
    }
  }

  lemma IntsSplit(values: seq<int>)
    requires values != []
    ensures Split(Join(PrintInts(values), ','), ',') == PrintInts(values) && Plain(Join(PrintInts(values), ','))
  {
    hide StringOf, Plain, Without, Split, Join;
    forall i | 0 <= i < |values| ensures Plain(StringOf(values[i])) && Without(StringOf(values[i]), ',') {
      NumbersArePlain(values[i]);
    }
    SplitUndoesJoin(PrintInts(values), ',');
    JoinIsPlain(PrintInts(values));
  }

  lemma ByDaysSplit(byDay: seq<ByDay>)
    requires byDay != []
    ensures Split(Join(PrintByDays(byDay), ','), ',') == PrintByDays(byDay) && Plain(Join(PrintByDays(byDay), ','))
  {
    hide PrintByDay, Plain, Without, Split, Join;
    forall i | 0 <= i < |byDay| ensures Plain(PrintByDay(byDay[i])) && Without(PrintByDay(byDay[i]), ',') {
      ByDayIsPlain(byDay[i]);
    }
    SplitUndoesJoin(PrintByDays(byDay), ',');
    JoinIsPlain(PrintByDays(byDay));
  }

  // --- Parts -------------------------------------------------------------------------------------------------------

  ghost predicate PlainPart(p: Part) { p.name in SUPPORTED_PARTS && Plain(p.value) }

  lemma {:induction false} UpperIsIdentity(s: string)
    requires forall i :: 0 <= i < |s| ==> PlainChar(s[i])
    ensures Upper(s) == s
  {
    assert forall i :: 0 <= i < |s| ==> UpperChar(s[i]) == s[i];
  }

  lemma {:induction false} FindsFirst(s: string, c: char, rest: string)
    requires Without(s, c)
    ensures IndexOf(s + [c] + rest, c) == |s|
  {
    if s == "" {
      assert s + [c] + rest == [c] + rest;
    } else {
      FindsFirst(s[1..], c, rest);
      assert (s + [c] + rest)[1..] == s[1..] + [c] + rest;
    }
  }

  lemma SupportedNames(name: string)
    requires name in SUPPORTED_PARTS
    ensures Plain(name) && Without(name, '=') && Without(name, ';') && name !in UNSUPPORTED_PARTS
  {}

  lemma PlainIsWithout(s: string, c: char)
    requires Plain(s) && !PlainChar(c)
    ensures Without(s, c)
  {}

  lemma SegmentReadsBack(p: Part, seen: seq<Part>)
    requires PlainPart(p) && Lookup(seen, p.name).None?
    ensures ParseSegment(p.name + "=" + p.value, seen) == Ok(p)
    ensures Without(p.name + "=" + p.value, ';')
  {
    hide Upper, IndexOf, Lookup, SUPPORTED_PARTS, UNSUPPORTED_PARTS;
    SupportedNames(p.name);
    PlainIsWithout(p.value, ';');
    var text := p.name + "=" + p.value;
    FindsFirst(p.name, '=', p.value);
    assert text[..|p.name|] == p.name && text[|p.name| + 1..] == p.value;
    UpperIsIdentity(p.name);
    UpperIsIdentity(p.value);
  }

  ghost predicate DistinctNames(parts: seq<Part>) {
    forall i, j :: 0 <= i < j < |parts| ==> parts[i].name != parts[j].name
  }

  lemma {:induction false} NotYetSeen(seen: seq<Part>, name: string)
    requires forall i :: 0 <= i < |seen| ==> seen[i].name != name
    ensures Lookup(seen, name) == None
  {
    if seen != [] { NotYetSeen(seen[1..], name); }
  }

  lemma {:induction false} SegmentsReadBack(parts: seq<Part>, n: nat)
    requires n <= |parts| && DistinctNames(parts) && forall i :: 0 <= i < |parts| ==> PlainPart(parts[i])
    ensures ParseSegments(PartTexts(parts[n..]), parts[..n]) == Ok(parts)
    decreases |parts| - n
  {
    hide PlainPart, ParseSegment, Lookup;
    if n < |parts| {
      NotYetSeen(parts[..n], parts[n].name);
      SegmentReadsBack(parts[n], parts[..n]);
      SegmentsReadBack(parts, n + 1);
      assert PartTexts(parts[n..])[1..] == PartTexts(parts[n + 1..]);
      assert parts[..n] + [parts[n]] == parts[..n + 1];
    } else {
      assert parts[..n] == parts;
    }
  }

  // --- The fields of a printed rule --------------------------------------------------------------------------------

  ghost predicate DistinctFields(fields: seq<Field>) {
    forall i, j :: 0 <= i < j < |fields| ==> fields[i].name != fields[j].name
  }

  lemma {:induction false} PresentParts(fields: seq<Field>)
    requires DistinctFields(fields)
    ensures DistinctNames(Present(fields))
    ensures forall p :: p in Present(fields) ==>
              exists i :: 0 <= i < |fields| && fields[i] == Field(p.name, Some(p.value))
    ensures forall i :: 0 <= i < |fields| ==> Lookup(Present(fields), fields[i].name) == fields[i].value
  {
    if fields != [] {
      var rest := Present(fields[1..]);
      PresentParts(fields[1..]);
      forall i | 0 <= i < |rest| ensures rest[i].name != fields[0].name {
        assert rest[i] in rest;
        var j :| 0 <= j < |fields[1..]| && fields[1..][j] == Field(rest[i].name, Some(rest[i].value));
        assert fields[j + 1] == fields[1..][j];
      }
      NotYetSeen(rest, fields[0].name);
      var first := if fields[0].value.Some? then [Part(fields[0].name, fields[0].value.value)] else [];
      assert Present(fields) == first + rest;
      forall p | p in Present(fields)
        ensures exists i :: 0 <= i < |fields| && fields[i] == Field(p.name, Some(p.value))
      {
        if p in rest {
          var j :| 0 <= j < |fields[1..]| && fields[1..][j] == Field(p.name, Some(p.value));
          assert fields[j + 1] == fields[1..][j];
        } else {
          assert fields[0] == Field(p.name, Some(p.value));
        }
      }
      forall i | 0 <= i < |fields| ensures Lookup(Present(fields), fields[i].name) == fields[i].value {
        if i > 0 {
          assert fields[i] == fields[1..][i - 1];
          LookupInRest(first, rest, fields[i].name);
        } else if first == [] {
          assert first + rest == rest;
        }
      }
    }
  }

  lemma LookupInRest(first: seq<Part>, rest: seq<Part>, name: string)
    requires |first| <= 1 && forall i :: 0 <= i < |first| ==> first[i].name != name
    ensures Lookup(first + rest, name) == Lookup(rest, name)
  {
    if first == [] { assert first + rest == rest; } else { assert (first + rest)[1..] == rest; }
  }

  lemma FieldsArePlain(r: Rule)
    requires WellFormed(r)
    ensures DistinctFields(Fields(r))
    ensures forall i :: 0 <= i < |Fields(r)| && Fields(r)[i].value.Some? ==>
              Fields(r)[i].name in SUPPORTED_PARTS && Plain(Fields(r)[i].value.value)
  {
    hide Plain, Join, PrintUntil, StringOf, FreqName, WeekdayName;
    FieldNames(r);
    NamesArePlain(r.freq, r.wkst);
    NumbersArePlain(r.interval);
    if r.count.Some? { NumbersArePlain(r.count.value); }
    if r.until.Some? { UntilIsPlain(r.until.value); }
    if r.byMonth != [] { IntsSplit(r.byMonth); }
    if r.byMonthDay != [] { IntsSplit(r.byMonthDay); }
    if r.byDay != [] { ByDaysSplit(r.byDay); }
  }

  lemma FieldNames(r: Rule)
    requires WellFormed(r)
    ensures |Fields(r)| == 8
    ensures DistinctFields(Fields(r)) && forall i :: 0 <= i < 8 ==> Fields(r)[i].name in SUPPORTED_PARTS
  {
    hide Join, PrintUntil, StringOf, FreqName, WeekdayName, UntilAllowed, OrdinalAllowed;
    var names := ["FREQ", "INTERVAL", "COUNT", "UNTIL", "BYMONTH", "BYMONTHDAY", "BYDAY", "WKST"];
    assert forall i :: 0 <= i < 8 ==> Fields(r)[i].name == names[i];
    assert names[0][0] == 'F' && names[1][0] == 'I' && names[2][0] == 'C' && names[3][0] == 'U' && names[7][0] == 'W';
    assert names[4][0] == 'B' && names[5][0] == 'B' && names[6][0] == 'B';
    assert |names[4]| == 7 && |names[5]| == 10 && |names[6]| == 5;
    assert SUPPORTED_PARTS[0] == names[0] && SUPPORTED_PARTS[1] == names[1] && SUPPORTED_PARTS[2] == names[2];
    assert SUPPORTED_PARTS[3] == names[3] && SUPPORTED_PARTS[6] == names[4] && SUPPORTED_PARTS[5] == names[5];
    assert SUPPORTED_PARTS[4] == names[6] && SUPPORTED_PARTS[7] == names[7];
  }

  lemma NamesArePlain(f: Frequency, w: Weekday)
    ensures Plain(FreqName(f)) && Plain(WeekdayName(w))
  {}

  lemma UntilIsPlain(u: Until)
    requires UntilAllowed(u)
    ensures Plain(PrintUntil(u))
  {
    hide PrintDate, PrintTime, DaysInMonth, FromLocalSeconds;
    match u
    case UntilDate(d) => DateText(d);
    case UntilLocal(l) => DateText(l.date); TimeText(l);
    case UntilUtc(t) =>
      UtcFields(t);
      var l := FromLocalSeconds(t / 1000);
      DateText(l.date);
      TimeText(l);
  }

  // --- The whole text ----------------------------------------------------------------------------------------------

  lemma {:induction false} JoinEnds(parts: seq<string>, sep: char)
    requires parts != [] && forall i :: 0 <= i < |parts| ==> parts[i] != ""
    ensures Join(parts, sep) != ""
    ensures parts[0] <= Join(parts, sep)
    ensures Join(parts, sep)[|Join(parts, sep)| - 1] == parts[|parts| - 1][|parts[|parts| - 1]| - 1]
  {
    if |parts| > 1 { JoinEnds(parts[1..], sep); }
  }

  lemma PlainIsNotSpace(c: char)
    requires PlainChar(c)
    ensures !IsSpace(c)
  {}

  lemma TextSurvives(body: string)
    requires |body| > 5 && body[..5] == "FREQ=" && PlainChar(body[|body| - 1])
    ensures Trim(body) == body && StripProperty(body) == Ok(body)
  {
    PlainIsNotSpace('F');
    PlainIsNotSpace(body[|body| - 1]);
    assert body[0] == body[..5][0] && body[1] == body[..5][1] && body[2] == body[..5][2] && body[3] == body[..5][3]
           && body[4] == body[..5][4];
    LetterRunIs(body);
  }

  lemma LetterRunIs(body: string)
    requires |body| > 4 && body[0] == 'F' && body[1] == 'R' && body[2] == 'E' && body[3] == 'Q' && body[4] == '='
    ensures LetterRun(body) == 4
  {
    assert LetterRun(body[4..]) == 0;
    assert body[3..][1..] == body[4..];
    assert LetterRun(body[3..]) == 1;
    assert body[2..][1..] == body[3..];
    assert LetterRun(body[2..]) == 2;
    assert body[1..][1..] == body[2..];
    assert LetterRun(body[1..]) == 3;
  }

  lemma {:induction false} SupportedOnly(parts: seq<Part>)
    requires forall i :: 0 <= i < |parts| ==> PlainPart(parts[i])
    ensures FirstUnsupported(parts) == None && FirstUnknown(parts) == None
  {
    hide SUPPORTED_PARTS, UNSUPPORTED_PARTS;
    if parts != [] {
      SupportedNames(parts[0].name);
      SupportedOnly(parts[1..]);
    }
  }

  ghost predicate Holds(seen: seq<Part>, r: Rule)
    requires WellFormed(r)
  {
    forall i :: 0 <= i < 8 ==> Lookup(seen, Fields(r)[i].name) == Fields(r)[i].value
  }

  lemma LookupsOf(seen: seq<Part>, r: Rule)
    requires WellFormed(r) && Holds(seen, r)
    ensures Lookup(seen, "FREQ") == Fields(r)[0].value && Lookup(seen, "INTERVAL") == Fields(r)[1].value
    ensures Lookup(seen, "COUNT") == Fields(r)[2].value && Lookup(seen, "UNTIL") == Fields(r)[3].value
    ensures Lookup(seen, "BYMONTH") == Fields(r)[4].value && Lookup(seen, "BYMONTHDAY") == Fields(r)[5].value
    ensures Lookup(seen, "BYDAY") == Fields(r)[6].value && Lookup(seen, "WKST") == Fields(r)[7].value
  {
    hide Lookup, Join, PrintUntil, StringOf, FreqName, WeekdayName;
    assert Fields(r)[0].name == "FREQ" && Fields(r)[1].name == "INTERVAL" && Fields(r)[2].name == "COUNT";
    assert Fields(r)[3].name == "UNTIL" && Fields(r)[4].name == "BYMONTH" && Fields(r)[5].name == "BYMONTHDAY";
    assert Fields(r)[6].name == "BYDAY" && Fields(r)[7].name == "WKST";
  }

  lemma FreqReadsBack(f: Frequency)
    ensures ParseFreq(FreqName(f)) == Some(f)
    ensures FreqName(f) != "HOURLY" && FreqName(f) != "MINUTELY" && FreqName(f) != "SECONDLY"
  {}

  lemma WeekdayReadsBack(w: Weekday)
    ensures ParseWeekday(WeekdayName(w)) == Some(w)
  {}

  lemma ScalarsReadBack(seen: seq<Part>, r: Rule)
    requires WellFormed(r) && Holds(seen, r)
    ensures OptionalInterval(seen) == Ok(r.interval) && OptionalCount(seen) == Ok(r.count)
    ensures OptionalUntil(seen) == Ok(r.until) && OptionalWkst(seen) == Ok(r.wkst)
  {
    hide Lookup, Join, PrintUntil, ParseUntil, StringOf, ParsePositiveInteger, UntilAllowed, WeekdayName, ParseWeekday,
         Holds;
    LookupsOf(seen, r);
    PositiveReadsBack(r.interval);
    if r.count.Some? { PositiveReadsBack(r.count.value); }
    if r.until.Some? { UntilReadsBack(r.until.value); }
    WeekdayReadsBack(r.wkst);
  }

  lemma ListsReadBack(seen: seq<Part>, r: Rule)
    requires WellFormed(r) && Holds(seen, r)
    ensures OptionalByDay(seen, r.freq) == Ok(r.byDay) && OptionalByMonthDay(seen, r.freq) == Ok(r.byMonthDay)
    ensures OptionalByMonth(seen) == Ok(r.byMonth)
  {
    hide Lookup, Join, Split, UntilAllowed, ParseByDays, ParseMonthDays, ParseMonths, OrdinalAllowed, Holds, PrintUntil;
    LookupsOf(seen, r);
    if r.byMonth != [] {
      IntsSplit(r.byMonth);
      MonthsReadBack(r.byMonth);
    }
    if r.byMonthDay != [] {
      IntsSplit(r.byMonthDay);
      forall i | 0 <= i < |r.byMonthDay| ensures r.byMonthDay[i] != 0 && -31 <= r.byMonthDay[i] <= 31 {
        assert r.byMonthDay[i] in r.byMonthDay;
      }
      MonthDaysReadBack(r.byMonthDay);
    }
    if r.byDay != [] {
      ByDaysSplit(r.byDay);
      ByDaysReadBack(r.freq, r.byDay);
    }
  }

  lemma PartsReadBack(r: Rule)
    requires WellFormed(r)
    ensures ParseParts(Present(Fields(r))) == Ok(r)
  {
    hide Fields, Present, Plain, Lookup, UntilAllowed, OptionalInterval, OptionalCount, OptionalUntil, OptionalByDay,
         OptionalByMonthDay, OptionalByMonth, OptionalWkst, FreqName, ParseFreq;
    var seen := Present(Fields(r));
    FieldsArePlain(r);
    FieldNames(r);
    PresentParts(Fields(r));
    assert Holds(seen, r);
    ScalarsReadBack(seen, r);
    ListsReadBack(seen, r);
    LookupsOf(seen, r);
    FreqField(r);
    FreqReadsBack(r.freq);
    PresentArePlain(r);
    SupportedOnly(seen);
  }

  lemma FreqField(r: Rule)
    requires WellFormed(r)
    ensures |Fields(r)| == 8 && Fields(r)[0] == Field("FREQ", Some(FreqName(r.freq)))
  {
    hide Join, PrintUntil, StringOf, FreqName;
  }

  lemma PresentArePlain(r: Rule)
    requires WellFormed(r)
    ensures forall i :: 0 <= i < |Present(Fields(r))| ==> PlainPart(Present(Fields(r))[i])
    ensures DistinctNames(Present(Fields(r)))
  {
    hide Fields, Present, Plain, UntilAllowed, SUPPORTED_PARTS;
    FieldsArePlain(r);
    PresentParts(Fields(r));
    var parts := Present(Fields(r));
    forall i | 0 <= i < |parts| ensures PlainPart(parts[i]) {
      assert parts[i] in parts;
    }
  }

  // parse(r.toString()) is r again, for every rule the parser lets through.
  lemma ParseUndoesPrint(r: Rule)
    requires WellFormed(r)
    ensures ParseRule(PrintRule(r)) == Ok(r)
  {
    hide PrintRule, Fields, UntilAllowed, ParseParts, Split, Trim, StripProperty, ParseSegments;
    PrintedParts(r);
    PartsReadBack(r);
  }

  lemma PrintedParts(r: Rule)
    requires WellFormed(r)
    ensures PrintRule(r) != "" && Trim(PrintRule(r)) == PrintRule(r)
    ensures StripProperty(PrintRule(r)) == Ok(PrintRule(r))
    ensures ParseSegments(Split(PrintRule(r), ';'), []) == Ok(Present(Fields(r)))
  {
    hide Fields, Plain, UntilAllowed, SUPPORTED_PARTS, Split, Join, Trim, StripProperty, ParseSegments, FreqName;
    var parts := Present(Fields(r));
    PresentArePlain(r);
    FreqField(r);
    PrintedSegments(parts);
    FirstSegment(r, parts);
    assert parts[0..] == parts && parts[..0] == [];
    SegmentsReadBack(parts, 0);
    TextSurvives(PrintRule(r));
  }

  lemma PrintedSegments(parts: seq<Part>)
    requires parts != [] && DistinctNames(parts) && forall i :: 0 <= i < |parts| ==> PlainPart(parts[i])
    ensures Split(Join(PartTexts(parts), ';'), ';') == PartTexts(parts)
    ensures PartTexts(parts)[0] <= Join(PartTexts(parts), ';')
    ensures Join(PartTexts(parts), ';') != ""
            && PlainChar(Join(PartTexts(parts), ';')[|Join(PartTexts(parts), ';')| - 1])
  {
    hide Split, Join, SUPPORTED_PARTS, Without;
    forall i | 0 <= i < |parts| ensures Without(PartTexts(parts)[i], ';') && PartTexts(parts)[i] != "" {
      NotYetSeen([], parts[i].name);
      SegmentReadsBack(parts[i], []);
    }
    SplitUndoesJoin(PartTexts(parts), ';');
    JoinEnds(PartTexts(parts), ';');
    var last := parts[|parts| - 1];
    assert PartTexts(parts)[|parts| - 1][|last.name| + |last.value|] == last.value[|last.value| - 1];
  }

  lemma FirstSegment(r: Rule, parts: seq<Part>)
    requires WellFormed(r) && parts == Present(Fields(r))
    ensures parts != [] && parts[0] == Part("FREQ", FreqName(r.freq))
    ensures PartTexts(parts)[0] <= PrintRule(r) ==> |PrintRule(r)| > 5 && PrintRule(r)[..5] == "FREQ="
  {
    hide Fields, FreqName, Join, UntilAllowed;
    FreqField(r);
    FreqNames(r.freq);
    if PartTexts(parts)[0] <= PrintRule(r) {
      var first := PartTexts(parts)[0];
      assert first == "FREQ" + "=" + FreqName(r.freq) && first[..5] == "FREQ=";
      assert PrintRule(r)[..|first|] == first;
      assert PrintRule(r)[..5] == first[..5];
    }
  }

  lemma FreqNames(f: Frequency)
    ensures |FreqName(f)| >= 5
  {}

  // --- What the parser lets through --------------------------------------------------------------------------------

  lemma {:induction false} ByDaysAllowed(freq: Frequency, items: seq<string>)
    requires ParseByDays(freq, items).Ok?
    ensures forall b :: b in ParseByDays(freq, items).value && b.ordinal.Some? ==> OrdinalAllowed(freq, b.ordinal.value)
  {
    hide ParseSigned, ParseWeekday;
    if items != [] { ByDaysAllowed(freq, items[1..]); }
  }

  lemma {:induction false} MonthDaysAllowed(items: seq<string>)
    requires ParseMonthDays(items).Ok?
    ensures forall v :: v in ParseMonthDays(items).value ==> v != 0 && -31 <= v <= 31
  {
    hide ParseSigned;
    if items != [] { MonthDaysAllowed(items[1..]); }
  }

  lemma {:induction false} MonthsAllowed(items: seq<string>)
    requires ParseMonths(items).Ok?
    ensures forall i :: 0 <= i < |ParseMonths(items).value| ==> 1 <= ParseMonths(items).value[i] <= 12
  {
    hide NumberOf;
    if items != [] { MonthsAllowed(items[1..]); }
  }

  lemma ParsedRulesAreWellFormed(text: string)
    requires ParseRule(text).Ok?
    ensures WellFormed(ParseRule(text).value)
  {
    hide Trim, StripProperty, ParseSegments, Split, Lookup, CheckParts, ParseByDays, ParseMonthDays, ParseMonths,
         ParseUntil, UntilAllowed, OrdinalAllowed, NumberOf, ParseWeekday;
    var seen := ParseSegments(Split(StripProperty(Trim(text)).value, ';'), []).value;
    var freq := CheckParts(seen).value;
    if Lookup(seen, "UNTIL").Some? { UntilIsAllowed(Lookup(seen, "UNTIL").value); }
    if Lookup(seen, "BYDAY").Some? { ByDaysAllowed(freq, Split(Lookup(seen, "BYDAY").value, ',')); }
    if Lookup(seen, "BYMONTHDAY").Some? && !freq.Weekly? {
      MonthDaysAllowed(Split(Lookup(seen, "BYMONTHDAY").value, ','));
    }
    if Lookup(seen, "BYMONTH").Some? { MonthsAllowed(Split(Lookup(seen, "BYMONTH").value, ',')); }
  }

  // Whatever text a rule was parsed from, printing it and parsing again gives the same rule.
  lemma CanonicalTextIsStable(text: string)
    requires ParseRule(text).Ok?
    ensures var r := ParseRule(text).value; WellFormed(r) && ParseRule(PrintRule(r)) == Ok(r)
  {
    hide ParseRule, WellFormed, PrintRule;
    ParsedRulesAreWellFormed(text);
    ParseUndoesPrint(ParseRule(text).value);
  }

  // equals compares texts, and that is equality of rules.
  lemma TextEqualityIsRuleEquality(a: Rule, b: Rule)
    requires WellFormed(a) && WellFormed(b)
    ensures RulesEqual(a, b) <==> a == b
  {
    hide ParseRule, WellFormed, PrintRule;
    ParseUndoesPrint(a);
    ParseUndoesPrint(b);
  }
}
