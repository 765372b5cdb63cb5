// What the text of a rule means: which texts are rules, and which rule each of them is.
module RRuleMeaning {
  import opened Prelude
  import opened CivilDate
  import opened Rules
  import opened RRuleText
  import opened RRuleRoundTrip

  // --- What a text says --------------------------------------------------------------------------------------------

  ghost predicate AllSpace(s: string) { forall i :: 0 <= i < |s| ==> IsSpace(s[i]) }

  // The text without the white space around it.
  ghost predicate Stripped(text: string, body: string) {
    && (exists before, after :: AllSpace(before) && AllSpace(after) && text == before + body + after)
    && (body != "" ==> !IsSpace(body[0]) && !IsSpace(body[|body| - 1]))
  }

  ghost predicate IsPropertyName(name: string) {
    name != "" && forall i :: 0 <= i < |name| ==> 'A' <= UpperChar(name[i]) <= 'Z' || name[i] == '-'
  }

  // The value of the RRULE property, with or without the property's name, in whatever case.
  ghost predicate PropertyValue(body: string, value: string) {
    || (exists name :: IsPropertyName(name) && Upper(name) == "RRULE" && body == name + ":" + value)
    || (body == value && forall name :: IsPropertyName(name) ==> !(name + ":" <= body))
  }

  // NAME=VALUE, read in upper case.
  ghost predicate SegmentIs(segment: string, p: Part) {
    exists name, value :: name != "" && value != "" && Without(name, '=') && segment == name + "=" + value
                          && p == Part(Upper(name), Upper(value))
  }

  ghost predicate SegmentsAre(value: string, parts: seq<Part>) {
    exists segments ::
      && |segments| == |parts| > 0 && Join(segments, ';') == value
      && forall i :: 0 <= i < |parts| ==> Without(segments[i], ';') && SegmentIs(segments[i], parts[i])
  }

  // The text is these parts, none of them twice.
  ghost predicate Says(text: string, parts: seq<Part>) {
    && DistinctNames(parts)
    && exists body, value :: Stripped(text, body) && PropertyValue(body, value) && SegmentsAre(value, parts)
  }

  // --- What the parts mean -----------------------------------------------------------------------------------------

  ghost predicate Absent(parts: seq<Part>, name: string) { forall p :: p in parts ==> p.name != name }

  ghost predicate IsNumeral(v: string, n: int) { v != "" && AllDigits(v) && NumberOf(v) == n }

  // One or two digits after an optional sign.
  ghost predicate IsSigned(v: string, n: int) {
    exists digits :: 1 <= |digits| <= 2 && AllDigits(digits)
                     && ((v == digits && n == NumberOf(digits)) || (v == "+" + digits && n == NumberOf(digits))
                         || (v == "-" + digits && n == -NumberOf(digits)))
  }

  // A weekday's name, alone or after an ordinal.
  ghost predicate IsByDay(item: string, b: ByDay) {
    match b.ordinal
    case None => item == WeekdayName(b.weekday)
    case Some(o) => exists number :: IsSigned(number, o) && item == number + WeekdayName(b.weekday)
  }

  // Eight digits: year, month, day.
  ghost predicate IsDate(v: string, d: LocalDate) {
    |v| == 8 && IsNumeral(v[..4], d.year) && IsNumeral(v[4..6], d.month) && IsNumeral(v[6..], d.day) && RealDate(d)
  }

  // Six digits: hour, minute, second.
  ghost predicate IsTime(v: string, l: LocalDateTime) {
    |v| == 6 && IsNumeral(v[..2], l.hour) && IsNumeral(v[2..4], l.minute) && IsNumeral(v[4..], l.second) && TimeOfDay(l)
  }

  ghost predicate IsUntil(v: string, u: Until) {
    match u
    case UntilDate(d) => IsDate(v, d)
    case UntilLocal(l) => exists date, time :: v == date + "T" + time && IsDate(date, l.date) && IsTime(time, l)
    case UntilUtc(t) =>
      exists date, time, l: LocalDateTime ::
        v == date + "T" + time + "Z" && IsDate(date, l.date) && IsTime(time, l) && DateUtc(l) == t
  }

  // A list of values, item by item.
  ghost predicate Items(v: string, items: seq<string>) {
    items != [] && Join(items, ',') == v && forall i :: 0 <= i < |items| ==> Without(items[i], ',')
  }

  ghost predicate AreByDays(v: string, byDay: seq<ByDay>) {
    exists items :: Items(v, items) && |items| == |byDay|
                    && forall i :: 0 <= i < |items| ==> IsByDay(items[i], byDay[i])
  }

  ghost predicate AreMonthDays(v: string, days: seq<int>) {
    exists items :: Items(v, items) && |items| == |days| && forall i :: 0 <= i < |items| ==> IsSigned(items[i], days[i])
  }

  ghost predicate AreMonths(v: string, months: seq<int>) {
    exists items :: Items(v, items) && |items| == |months|
                    && forall i :: 0 <= i < |items| ==> |items[i]| <= 2 && IsNumeral(items[i], months[i])
  }

  ghost predicate SaysInterval(parts: seq<Part>, n: int) {
    if Absent(parts, "INTERVAL") then n == 1 else exists v :: Part("INTERVAL", v) in parts && IsNumeral(v, n)
  }

  ghost predicate SaysCount(parts: seq<Part>, count: Option<int>) {
    match count
    case None => Absent(parts, "COUNT")
    case Some(n) => exists v :: Part("COUNT", v) in parts && IsNumeral(v, n)
  }

  ghost predicate SaysUntil(parts: seq<Part>, until: Option<Until>) {
    match until
    case None => Absent(parts, "UNTIL")
    case Some(u) => exists v :: Part("UNTIL", v) in parts && IsUntil(v, u)
  }

  ghost predicate SaysByDay(parts: seq<Part>, byDay: seq<ByDay>) {
    if Absent(parts, "BYDAY") then byDay == [] else exists v :: Part("BYDAY", v) in parts && AreByDays(v, byDay)
  }

  ghost predicate SaysByMonthDay(parts: seq<Part>, days: seq<int>) {
    if Absent(parts, "BYMONTHDAY") then days == []
    else exists v :: Part("BYMONTHDAY", v) in parts && AreMonthDays(v, days)
  }

  ghost predicate SaysByMonth(parts: seq<Part>, months: seq<int>) {
    if Absent(parts, "BYMONTH") then months == [] else exists v :: Part("BYMONTH", v) in parts && AreMonths(v, months)
  }

  ghost predicate SaysWkst(parts: seq<Part>, w: Weekday) {
    if Absent(parts, "WKST") then w == MO else Part("WKST", WeekdayName(w)) in parts
  }

  // Each field is what its part says, or its default where there is none, and there is no other part.
  ghost predicate Means(parts: seq<Part>, r: Rule) {
    && (forall p :: p in parts ==> IsRulePart(p.name))
    && Part("FREQ", FreqName(r.freq)) in parts
    && SaysInterval(parts, r.interval) && SaysCount(parts, r.count) && SaysUntil(parts, r.until)
    && SaysByDay(parts, r.byDay) && SaysByMonthDay(parts, r.byMonthDay) && SaysByMonth(parts, r.byMonth)
    && SaysWkst(parts, r.wkst)
  }

  ghost predicate IsRulePart(name: string) {
    name == "FREQ" || name == "INTERVAL" || name == "COUNT" || name == "UNTIL"
    || name == "BYDAY" || name == "BYMONTHDAY" || name == "BYMONTH" || name == "WKST"
  }

  // Parts RFC 5545 has and the source declines by name.
  ghost predicate IsDeclined(name: string) {
    name == "BYSETPOS" || name == "BYWEEKNO" || name == "BYYEARDAY" || name == "BYHOUR" || name == "BYMINUTE"
    || name == "BYSECOND" || name == "RDATE" || name == "EXDATE" || name == "EXRULE"
  }

  // ECMA-262's white space and line terminators.
  predicate IsWhiteSpace(c: char) {
    c in "\t\n\r \U{B}\U{C}\U{A0}\U{1680}\U{2028}\U{2029}\U{202F}\U{205F}\U{3000}\U{FEFF}"
    || '\U{2000}' <= c <= '\U{200A}'
  }

  lemma SpaceIsWhiteSpace(c: char)
    ensures IsSpace(c) <==> IsWhiteSpace(c)
  {}

  lemma UpperIs(c: char, i: nat)
    ensures i < 26 ==> UpperChar("abcdefghijklmnopqrstuvwxyz"[i]) == "ABCDEFGHIJKLMNOPQRSTUVWXYZ"[i]
    ensures c !in "abcdefghijklmnopqrstuvwxyz" ==> UpperChar(c) == c
  {
    var small := "abcdefghijklmnopqrstuvwxyz";
    assert small[0] == 'a' && small[25] == 'z';
    if 'a' <= c <= 'z' { assert small[(c - 'a') as int] == c; }
  }

  // --- Text to parts -----------------------------------------------------------------------------------------------

  lemma {:induction false} TrimStartStrips(s: string) returns (before: string)
    ensures AllSpace(before) && s == before + TrimStart(s)
    ensures TrimStart(s) != "" ==> !IsSpace(TrimStart(s)[0])
  {
    before := "";
    if s != "" && IsSpace(s[0]) {
      before := TrimStartStrips(s[1..]);
      before := [s[0]] + before;
    }
  }

  lemma {:induction false} TrimEndStrips(s: string) returns (after: string)
    ensures AllSpace(after) && s == TrimEnd(s) + after
    ensures TrimEnd(s) != "" ==> !IsSpace(TrimEnd(s)[|TrimEnd(s)| - 1])
  {
    after := "";
    if s != "" && IsSpace(s[|s| - 1]) {
      after := TrimEndStrips(s[..|s| - 1]);
      after := after + [s[|s| - 1]];
    }
  }

  lemma TrimStrips(text: string)
    ensures Stripped(text, Trim(text))
  {
    hide IsSpace, TrimStart, TrimEnd;
    var before := TrimStartStrips(text);
    var after := TrimEndStrips(TrimStart(text));
    assert text == before + Trim(text) + after;
    if Trim(text) != "" { assert Trim(text)[0] == TrimStart(text)[0]; }
  }

  lemma {:induction false} SpaceIsCutOff(before: string, s: string)
    requires AllSpace(before) && (s != "" ==> !IsSpace(s[0]))
    ensures TrimStart(before + s) == s
  {
    hide IsSpace;
    if before == "" {
      assert before + s == s;
    } else {
      SpaceIsCutOff(before[1..], s);
      assert (before + s)[1..] == before[1..] + s;
    }
  }

  lemma {:induction false} SpaceIsCutOffEnd(s: string, after: string)
    requires AllSpace(after) && (s != "" ==> !IsSpace(s[|s| - 1]))
    ensures TrimEnd(s + after) == s
  {
    hide IsSpace;
    if after == "" {
      assert s + after == s;
    } else {
      SpaceIsCutOffEnd(s, after[..|after| - 1]);
      assert (s + after)[..|s + after| - 1] == s + after[..|after| - 1];
    }
  }

  lemma {:induction false} OnlySpace(s: string)
    requires AllSpace(s)
    ensures TrimStart(s) == ""
  {
    hide IsSpace;
    if s != "" { OnlySpace(s[1..]); }
  }

  lemma StrippedIsTrim(text: string, body: string)
    ensures Stripped(text, body) <==> body == Trim(text)
  {
    hide IsSpace, TrimStart, TrimEnd;
    TrimStrips(text);
    if Stripped(text, body) {
      var before, after :| AllSpace(before) && AllSpace(after) && text == before + body + after;
      if body == "" {
        assert text == before + after;
        OnlySpace(text);
        SpaceIsCutOffEnd("", "");
      } else {
        assert text == before + (body + after);
        SpaceIsCutOff(before, body + after);
        SpaceIsCutOffEnd(body, after);
      }
    }
  }

  lemma {:induction false} RunOfLetters(name: string, rest: string)
    requires forall i :: 0 <= i < |name| ==> 'A' <= UpperChar(name[i]) <= 'Z' || name[i] == '-'
    ensures LetterRun(name + ":" + rest) == |name|
  {
    var s := name + ":" + rest;
    if name == "" {
      assert s[0] == ':';
    } else {
      RunOfLetters(name[1..], rest);
      assert s[1..] == name[1..] + ":" + rest;
    }
  }

  lemma {:induction false} LettersRun(s: string)
    ensures forall i :: 0 <= i < LetterRun(s) ==> 'A' <= UpperChar(s[i]) <= 'Z' || s[i] == '-'
  {
    if s != "" && (IsUpper(UpperChar(s[0])) || s[0] == '-') { LettersRun(s[1..]); }
  }

  lemma NamedProperty(body: string, name: string, value: string)
    requires IsPropertyName(name) && body == name + ":" + value
    ensures LetterRun(body) == |name| > 0 && |name| < |body| && body[|name|] == ':'
    ensures body[..|name|] == name && body[|name| + 1..] == value
  {
    RunOfLetters(name, value);
  }

  lemma PropertyPrefix(body: string, name: string)
    requires IsPropertyName(name) && name + ":" <= body
    ensures LetterRun(body) == |name| > 0 && |name| < |body| && body[|name|] == ':'
  {
    assert body == name + ":" + body[|name| + 1..];
    NamedProperty(body, name, body[|name| + 1..]);
  }

  lemma PropertyIsStripped(body: string, value: string)
    ensures PropertyValue(body, value) <==> StripProperty(body) == Ok(value)
  {
    hide Upper, LetterRun, UpperChar;
    var n := LetterRun(body);
    LettersRun(body);
    if n == 0 || n == |body| || body[n] != ':' {
      forall name, rest | IsPropertyName(name) ensures body != name + ":" + rest {
        if body == name + ":" + rest { NamedProperty(body, name, rest); }
      }
      forall name | IsPropertyName(name) ensures !(name + ":" <= body) {
        if name + ":" <= body { PropertyPrefix(body, name); }
      }
    } else {
      var name := body[..n];
      assert IsPropertyName(name) && name + ":" <= body && body == name + ":" + body[n + 1..];
      RRuleProperty(name);
      forall other, rest | IsPropertyName(other) && body == other + ":" + rest
        ensures other == name && rest == body[n + 1..]
      {
        NamedProperty(body, other, rest);
      }
    }
  }

  lemma RRuleProperty(name: string)
    ensures Upper(name) == "RRULE" ==> Upper(name) != "RDATE" && Upper(name) != "EXDATE" && Upper(name) != "EXRULE"
  {
    if Upper(name) == "RRULE" { assert Upper(name)[1] == 'R'; }
  }

  lemma {:induction false} JoinUndoesSplit(s: string, sep: char)
    ensures Join(Split(s, sep), sep) == s
    ensures forall i :: 0 <= i < |Split(s, sep)| ==> Without(Split(s, sep)[i], sep)
  {
    if s != "" {
      JoinUndoesSplit(s[1..], sep);
      var rest := Split(s[1..], sep);
      if s[0] == sep {
        assert ([""] + rest)[1..] == rest;
      } else if |rest| > 1 {
        assert ([[s[0]] + rest[0]] + rest[1..])[1..] == rest[1..];
      }
    }
  }

  lemma SplitIsJoin(s: string, sep: char, parts: seq<string>)
    requires parts != []
    ensures Split(s, sep) == parts <==> Join(parts, sep) == s && forall i :: 0 <= i < |parts| ==> Without(parts[i], sep)
  {
    hide Split, Join, Without;
    JoinUndoesSplit(s, sep);
    if Join(parts, sep) == s && forall i :: 0 <= i < |parts| ==> Without(parts[i], sep) { SplitUndoesJoin(parts, sep); }
  }

  lemma {:induction false} EqualsIs(s: string, c: char)
    ensures Without(s[..IndexOf(s, c)], c)
    ensures IndexOf(s, c) < |s| ==> s[IndexOf(s, c)] == c
  {
    if s != "" && s[0] != c {
      EqualsIs(s[1..], c);
      assert s[..IndexOf(s, c)] == [s[0]] + s[1..][..IndexOf(s[1..], c)];
    }
  }

  lemma {:induction false} LookupIs(parts: seq<Part>, name: string)
    ensures Lookup(parts, name).None? <==> Absent(parts, name)
    ensures Lookup(parts, name).Some? ==> Part(name, Lookup(parts, name).value) in parts
    ensures DistinctNames(parts) ==> forall v :: Part(name, v) in parts ==> Lookup(parts, name) == Some(v)
  {
    if parts != [] {
      LookupIs(parts[1..], name);
      assert parts == [parts[0]] + parts[1..];
      if DistinctNames(parts) {
        assert forall i :: 0 <= i < |parts[1..]| ==> parts[1..][i] == parts[i + 1];
        forall v | Part(name, v) in parts ensures Lookup(parts, name) == Some(v) {
          var i :| 0 <= i < |parts| && parts[i] == Part(name, v);
        }
      }
    }
  }

  lemma SegmentIsParsed(segment: string, seen: seq<Part>, p: Part)
    ensures ParseSegment(segment, seen) == Ok(p) <==> SegmentIs(segment, p) && Absent(seen, p.name)
  {
    hide IndexOf, Lookup, Without, Absent;
    var at := IndexOf(segment, '=');
    EqualsIs(segment, '=');
    LookupIs(seen, p.name);
    if at < |segment| { assert segment == segment[..at] + "=" + segment[at + 1..]; }
    forall name, value | Without(name, '=') && segment == name + "=" + value
      ensures at == |name| < |segment| && segment[..at] == name && segment[at + 1..] == value
    {
      FindsFirst(name, '=', value);
    }
    if ParseSegment(segment, seen).Ok? { SegmentReads(segment, seen); }
  }

  lemma SegmentReads(segment: string, seen: seq<Part>)
    requires ParseSegment(segment, seen).Ok?
    ensures SegmentIs(segment, ParseSegment(segment, seen).value)
  {
    hide IndexOf, Lookup, Without;
    var at := IndexOf(segment, '=');
    EqualsIs(segment, '=');
    var name, value := segment[..at], segment[at + 1..];
    assert segment == name + "=" + value;
  }

  // Segments from the i-th on, after the parts before it.
  lemma {:induction false} SegmentsParsed(segments: seq<string>, parts: seq<Part>, i: nat)
    requires |segments| == |parts| && i <= |parts| && DistinctNames(parts)
    requires forall j :: i <= j < |parts| ==> SegmentIs(segments[j], parts[j])
    ensures ParseSegments(segments[i..], parts[..i]) == Ok(parts)
    decreases |parts| - i
  {
    hide ParseSegment, SegmentIs;
    if i < |parts| {
      SegmentIsParsed(segments[i], parts[..i], parts[i]);
      SegmentsParsed(segments, parts, i + 1);
      assert segments[i..][1..] == segments[i + 1..] && parts[..i] + [parts[i]] == parts[..i + 1];
    } else {
      assert parts[..i] == parts;
    }
  }

  lemma {:induction false} SegmentsReadAs(segments: seq<string>, seen: seq<Part>)
    requires DistinctNames(seen) && ParseSegments(segments, seen).Ok?
    ensures var parts := ParseSegments(segments, seen).value;
            && |parts| == |seen| + |segments| && seen <= parts && DistinctNames(parts)
            && forall i :: 0 <= i < |segments| ==> SegmentIs(segments[i], parts[|seen| + i])
    decreases |segments|
  {
    hide ParseSegment, SegmentIs;
    if segments != [] {
      var p := ParseSegment(segments[0], seen).value;
      SegmentIsParsed(segments[0], seen, p);
      assert DistinctNames(seen + [p]);
      SegmentsReadAs(segments[1..], seen + [p]);
      var parts := ParseSegments(segments, seen).value;
      assert parts[|seen|] == (seen + [p])[|seen|];
      forall i | 0 <= i < |segments| ensures SegmentIs(segments[i], parts[|seen| + i]) {
        if i > 0 { assert segments[1..][i - 1] == segments[i]; }
      }
    }
  }

  lemma SegmentsAreParsed(value: string, parts: seq<Part>)
    ensures ParseSegments(Split(value, ';'), []) == Ok(parts) <==> SegmentsAre(value, parts) && DistinctNames(parts)
  {
    hide ParseSegments, Split, Join, SegmentIs, Without;
    if SegmentsAre(value, parts) && DistinctNames(parts) {
      var segments :| |segments| == |parts| > 0 && Join(segments, ';') == value
        && forall i :: 0 <= i < |parts| ==> Without(segments[i], ';') && SegmentIs(segments[i], parts[i]);
      SplitIsJoin(value, ';', segments);
      SegmentsParsed(segments, parts, 0);
      assert segments[0..] == segments && parts[..0] == [];
    }
    if ParseSegments(Split(value, ';'), []) == Ok(parts) {
      SegmentsReadAs(Split(value, ';'), []);
      JoinUndoesSplit(value, ';');
    }
  }

  // The parts the parser goes on with are those the text says.
  ghost function PartsOf(text: string): Parsed<seq<Part>> {
    match StripProperty(Trim(text))
    case Err(e) => Err(e)
    case Ok(value) => ParseSegments(Split(value, ';'), [])
  }

  lemma SaysIsParsed(text: string, parts: seq<Part>)
    ensures Says(text, parts) <==> PartsOf(text) == Ok(parts)
    ensures Says(text, parts) ==> ParseRule(text) == ParseParts(parts)
  {
    hide Trim, StripProperty, ParseSegments, Split, Stripped, PropertyValue, SegmentsAre, ParseParts, DistinctNames;
    StrippedIsTrim(text, Trim(text));
    forall body | Stripped(text, body) ensures body == Trim(text) { StrippedIsTrim(text, body); }
    forall value ensures PropertyValue(Trim(text), value) <==> StripProperty(Trim(text)) == Ok(value) {
      PropertyIsStripped(Trim(text), value);
    }
    match StripProperty(Trim(text)) {
      case Err(_) =>
      case Ok(value) =>
        SegmentsAreParsed(value, parts);
        assert PropertyValue(Trim(text), value);
        if Trim(text) == "" { EmptySaysNothing(parts); }
    }
  }

  lemma EmptySaysNothing(parts: seq<Part>)
    ensures StripProperty("") == Ok("") && ParseSegments(Split("", ';'), []).Err?
  {}

  // --- Parts to rule -----------------------------------------------------------------------------------------------

  lemma PositiveIs(v: string, n: int)
    ensures ParsePositiveInteger(v) == Some(n) <==> IsNumeral(v, n) && n >= 1
  {}

  lemma SignedIsParsed(v: string, n: int)
    requires IsSigned(v, n)
    ensures ParseSigned(v) == Some(n)
  {
    hide NumberOf;
    var digits :| 1 <= |digits| <= 2 && AllDigits(digits)
      && ((v == digits && n == NumberOf(digits)) || (v == "+" + digits && n == NumberOf(digits))
          || (v == "-" + digits && n == -NumberOf(digits)));
    if v != digits { assert v[1..] == digits; } else { assert IsDigit(v[0]); }
  }

  lemma ParsedIsSigned(v: string, n: int)
    requires ParseSigned(v) == Some(n)
    ensures IsSigned(v, n)
  {
    hide NumberOf;
    var digits := if v != "" && (v[0] == '+' || v[0] == '-') then v[1..] else v;
    assert v == digits || v == [v[0]] + digits;
  }

  lemma SignedIs(v: string, n: int)
    ensures ParseSigned(v) == Some(n) <==> IsSigned(v, n)
  {
    hide ParseSigned, IsSigned;
    if IsSigned(v, n) { SignedIsParsed(v, n); }
    if ParseSigned(v) == Some(n) { ParsedIsSigned(v, n); }
  }

  lemma WeekdayIs(v: string, w: Weekday)
    ensures ParseWeekday(v) == Some(w) <==> v == WeekdayName(w)
  {
    WeekdayReadsBack(w);
  }

  lemma FreqIs(v: string, f: Frequency)
    ensures ParseFreq(v) == Some(f) <==> v == FreqName(f)
  {
    FreqReadsBack(f);
  }

  lemma ByDayIs(freq: Frequency, item: string, b: ByDay)
    ensures ParseByDay(freq, item) == Ok(b) <==>
              IsByDay(item, b) && (b.ordinal.Some? ==> OrdinalAllowed(freq, b.ordinal.value))
  {
    hide ParseSigned, ParseWeekday, IsSigned, WeekdayName;
    if |item| >= 2 {
      var number, name := item[..|item| - 2], item[|item| - 2..];
      assert item == number + name;
      WeekdayIs(name, b.weekday);
      if b.ordinal.Some? { SignedIs(number, b.ordinal.value); }
      forall other: string | item == other + WeekdayName(b.weekday)
        ensures other == number && name == WeekdayName(b.weekday)
      {
        assert item[..|other|] == other;
      }
      assert item == WeekdayName(b.weekday) <==> number == "" && name == WeekdayName(b.weekday);
      NotSigned();
    }
  }

  lemma NotSigned()
    ensures forall n :: !IsSigned("", n)
  {}

  lemma MonthDayIs(item: string, day: int)
    ensures ParseMonthDay(item) == Ok(day) <==> IsSigned(item, day) && day != 0 && -31 <= day <= 31
  {
    hide ParseSigned, IsSigned;
    SignedIs(item, day);
    if ParseSigned(item).Some? { SignedIs(item, ParseSigned(item).value); }
  }

  lemma MonthIs(item: string, month: int)
    ensures ParseMonth(item) == Ok(month) <==> |item| <= 2 && IsNumeral(item, month) && 1 <= month <= 12
  {}

  lemma {:induction false} ByDaysAre(freq: Frequency, items: seq<string>, byDay: seq<ByDay>)
    ensures ParseByDays(freq, items) == Ok(byDay) <==>
              |items| == |byDay| && forall i :: 0 <= i < |items| ==> ParseByDay(freq, items[i]) == Ok(byDay[i])
  {
    hide ParseByDay;
    if items != [] {
      if byDay != [] { assert byDay == [byDay[0]] + byDay[1..]; }
      ByDaysAre(freq, items[1..], if byDay == [] then [] else byDay[1..]);
      assert forall i :: 0 < i < |items| ==> items[i] == items[1..][i - 1];
      assert forall i :: 0 < i < |byDay| ==> byDay[i] == byDay[1..][i - 1];
    }
  }

  lemma {:induction false} MonthDaysAre(items: seq<string>, days: seq<int>)
    ensures ParseMonthDays(items) == Ok(days) <==>
              |items| == |days| && forall i :: 0 <= i < |items| ==> ParseMonthDay(items[i]) == Ok(days[i])
  {
    hide ParseMonthDay;
    if items != [] {
      if days != [] { assert days == [days[0]] + days[1..]; }
      MonthDaysAre(items[1..], if days == [] then [] else days[1..]);
      assert forall i :: 0 < i < |items| ==> items[i] == items[1..][i - 1];
      assert forall i :: 0 < i < |days| ==> days[i] == days[1..][i - 1];
    }
  }

  lemma {:induction false} MonthsAre(items: seq<string>, months: seq<int>)
    ensures ParseMonths(items) == Ok(months) <==>
              |items| == |months| && forall i :: 0 <= i < |items| ==> ParseMonth(items[i]) == Ok(months[i])
  {
    hide ParseMonth;
    if items != [] {
      if months != [] { assert months == [months[0]] + months[1..]; }
      MonthsAre(items[1..], if months == [] then [] else months[1..]);
      assert forall i :: 0 < i < |items| ==> items[i] == items[1..][i - 1];
      assert forall i :: 0 < i < |months| ==> months[i] == months[1..][i - 1];
    }
  }

  lemma ItemsAreSplit(v: string, items: seq<string>)
    ensures Items(v, items) <==> items == Split(v, ',')
  {
    hide Split, Join, Without;
    if items != [] { SplitIsJoin(v, ',', items); }
  }

  // --- UNTIL -------------------------------------------------------------------------------------------------------

  lemma DateIs(v: string, d: LocalDate)
    ensures IsDate(v, d) <==>
              && |v| == 8 && AllDigits(v)
              && d == LocalDate(NumberOf(v[..4]), NumberOf(v[4..6]), NumberOf(v[6..8]))
              && 1 <= d.month <= 12 && 1 <= d.day <= DaysInMonth(d.year, d.month)
  {
    hide NumberOf, DaysInMonth;
    if |v| == 8 {
      assert v[6..] == v[6..8] && v == v[..4] + v[4..6] + v[6..8];
      if AllDigits(v) { FourDigits(v[..4]); }
    }
  }

  lemma TimeIs(v: string, l: LocalDateTime)
    ensures IsTime(v, l) <==>
              && |v| == 6 && AllDigits(v) && l.hour == NumberOf(v[..2]) && l.minute == NumberOf(v[2..4])
              && l.second == NumberOf(v[4..6]) && l.hour <= 23 && l.minute <= 59 && l.second <= 59
  {
    hide NumberOf;
    if |v| == 6 { assert v[4..] == v[4..6] && v == v[..2] + v[2..4] + v[4..6]; }
  }

  // A date and a time as the parser takes them apart.
  lemma Apart(v: string, date: string, time: string, zulu: string)
    requires |date| == 8 && |time| == 6 && v == date + "T" + time + zulu
    ensures |v| == 15 + |zulu| && v[..8] == date && v[8] == 'T' && v[9..15] == time && v[15..] == zulu
  {}

  lemma UntilReads(v: string)
    requires ParseUntil(v).Some?
    ensures IsUntil(v, ParseUntil(v).value)
  {
    hide NumberOf, DaysInMonth, DateUtc, IsDate, IsTime;
    var date := LocalDate(NumberOf(v[..4]), NumberOf(v[4..6]), NumberOf(v[6..8]));
    var text := v[..8];
    assert text[..4] == v[..4] && text[4..6] == v[4..6] && text[6..8] == v[6..8];
    DateIs(text, date);
    if |v| == 8 {
      assert v == text;
    } else {
      var time := v[9..15];
      var l := LocalDateTime(date, NumberOf(time[..2]), NumberOf(time[2..4]), NumberOf(time[4..6]));
      TimeIs(time, l);
      assert v == text + "T" + time + v[15..];
      if |v| == 16 { assert v[15..] == "Z"; } else { assert text + "T" + time + v[15..] == text + "T" + time; }
    }
  }

  lemma DateTimeReads(v: string, date: string, time: string, l: LocalDateTime, zulu: bool)
    requires IsDate(date, l.date) && IsTime(time, l) && v == date + "T" + time + (if zulu then "Z" else "")
    ensures ParseUntil(v) == Some(if zulu then UntilUtc(DateUtc(l)) else UntilLocal(l))
  {
    hide NumberOf, DaysInMonth, DateUtc, IsDate, IsTime;
    DateIs(date, l.date);
    TimeIs(time, l);
    Apart(v, date, time, if zulu then "Z" else "");
    assert v[..4] == date[..4] && v[4..6] == date[4..6] && v[6..8] == date[6..8];
    if zulu { assert v[15..][0] == v[15]; }
  }

  lemma UntilIs(v: string, u: Until)
    ensures ParseUntil(v) == Some(u) <==> IsUntil(v, u)
  {
    hide NumberOf, DaysInMonth, DateUtc, IsTime, ParseUntil;
    if ParseUntil(v).Some? { UntilReads(v); }
    if IsUntil(v, u) {
      match u
      case UntilDate(d) => OnlyDate(v, d);
      case UntilLocal(l) =>
        var date, time :| v == date + "T" + time && IsDate(date, l.date) && IsTime(time, l);
        assert v == date + "T" + time + "";
        DateTimeReads(v, date, time, l, false);
      case UntilUtc(t) =>
        var date, time, l: LocalDateTime :|
          v == date + "T" + time + "Z" && IsDate(date, l.date) && IsTime(time, l) && DateUtc(l) == t;
        DateTimeReads(v, date, time, l, true);
    }
  }

  lemma OnlyDate(v: string, d: LocalDate)
    requires IsDate(v, d)
    ensures ParseUntil(v) == Some(UntilDate(d))
  {
    hide NumberOf, DaysInMonth, IsDate;
    DateIs(v, d);
    assert v[..8] == v;
  }

  // --- Field by field ----------------------------------------------------------------------------------------------

  lemma IntervalIs(parts: seq<Part>, n: int)
    requires DistinctNames(parts)
    ensures OptionalInterval(parts) == Ok(n) <==> SaysInterval(parts, n) && n >= 1
  {
    hide Lookup, ParsePositiveInteger, IsNumeral, DistinctNames;
    LookupIs(parts, "INTERVAL");
    forall v ensures ParsePositiveInteger(v) == Some(n) <==> IsNumeral(v, n) && n >= 1 { PositiveIs(v, n); }
  }

  lemma CountIs(parts: seq<Part>, count: Option<int>)
    requires DistinctNames(parts)
    ensures OptionalCount(parts) == Ok(count) <==> SaysCount(parts, count) && (count.Some? ==> count.value >= 1)
  {
    hide Lookup, ParsePositiveInteger, IsNumeral, DistinctNames;
    LookupIs(parts, "COUNT");
    forall v, n ensures ParsePositiveInteger(v) == Some(n) <==> IsNumeral(v, n) && n >= 1 { PositiveIs(v, n); }
  }

  lemma UntilPartIs(parts: seq<Part>, until: Option<Until>)
    requires DistinctNames(parts)
    ensures OptionalUntil(parts) == Ok(until) <==> SaysUntil(parts, until)
  {
    hide Lookup, ParseUntil, IsUntil, DistinctNames;
    LookupIs(parts, "UNTIL");
    forall v, u ensures ParseUntil(v) == Some(u) <==> IsUntil(v, u) { UntilIs(v, u); }
  }

  ghost predicate OrdinalsAllowed(freq: Frequency, byDay: seq<ByDay>) {
    forall i :: 0 <= i < |byDay| && byDay[i].ordinal.Some? ==> OrdinalAllowed(freq, byDay[i].ordinal.value)
  }

  lemma ByDaysRead(freq: Frequency, v: string, byDay: seq<ByDay>)
    ensures ParseByDays(freq, Split(v, ',')) == Ok(byDay) <==> AreByDays(v, byDay) && OrdinalsAllowed(freq, byDay)
  {
    hide ParseByDays, ParseByDay, Split, Items, IsByDay, OrdinalAllowed;
    var items := Split(v, ',');
    ItemsAreSplit(v, items);
    ByDaysAre(freq, items, byDay);
    forall i | 0 <= i < |items| == |byDay|
      ensures ParseByDay(freq, items[i]) == Ok(byDay[i]) <==>
                IsByDay(items[i], byDay[i])
                && (byDay[i].ordinal.Some? ==> OrdinalAllowed(freq, byDay[i].ordinal.value))
    {
      ByDayIs(freq, items[i], byDay[i]);
    }
    forall other | Items(v, other) ensures other == items { ItemsAreSplit(v, other); }
  }

  lemma MonthDaysRead(v: string, days: seq<int>)
    ensures ParseMonthDays(Split(v, ',')) == Ok(days) <==>
              AreMonthDays(v, days) && forall i :: 0 <= i < |days| ==> days[i] != 0 && -31 <= days[i] <= 31
  {
    hide ParseMonthDays, ParseMonthDay, Split, Items, IsSigned;
    var items := Split(v, ',');
    ItemsAreSplit(v, items);
    MonthDaysAre(items, days);
    forall i | 0 <= i < |items| == |days|
      ensures ParseMonthDay(items[i]) == Ok(days[i]) <==>
                IsSigned(items[i], days[i]) && days[i] != 0 && -31 <= days[i] <= 31
    {
      MonthDayIs(items[i], days[i]);
    }
    forall other | Items(v, other) ensures other == items { ItemsAreSplit(v, other); }
  }

  lemma MonthsRead(v: string, months: seq<int>)
    ensures ParseMonths(Split(v, ',')) == Ok(months) <==>
              AreMonths(v, months) && forall i :: 0 <= i < |months| ==> 1 <= months[i] <= 12
  {
    hide ParseMonths, ParseMonth, Split, Items, IsNumeral;
    var items := Split(v, ',');
    ItemsAreSplit(v, items);
    MonthsAre(items, months);
    forall i | 0 <= i < |items| == |months|
      ensures ParseMonth(items[i]) == Ok(months[i]) <==>
                |items[i]| <= 2 && IsNumeral(items[i], months[i]) && 1 <= months[i] <= 12
    {
      MonthIs(items[i], months[i]);
    }
    forall other | Items(v, other) ensures other == items { ItemsAreSplit(v, other); }
  }

  lemma ByDayPartIs(parts: seq<Part>, freq: Frequency, byDay: seq<ByDay>)
    requires DistinctNames(parts)
    ensures OptionalByDay(parts, freq) == Ok(byDay) <==> SaysByDay(parts, byDay) && OrdinalsAllowed(freq, byDay)
  {
    hide Lookup, ParseByDays, Split, AreByDays, DistinctNames, OrdinalAllowed;
    LookupIs(parts, "BYDAY");
    forall v
      ensures ParseByDays(freq, Split(v, ',')) == Ok(byDay) <==> AreByDays(v, byDay) && OrdinalsAllowed(freq, byDay)
    {
      ByDaysRead(freq, v, byDay);
    }
  }

  lemma ByMonthDayPartIs(parts: seq<Part>, freq: Frequency, days: seq<int>)
    requires DistinctNames(parts)
    ensures OptionalByMonthDay(parts, freq) == Ok(days) <==>
              && SaysByMonthDay(parts, days) && (freq.Weekly? ==> days == [])
              && forall i :: 0 <= i < |days| ==> days[i] != 0 && -31 <= days[i] <= 31
  {
    hide Lookup, ParseMonthDays, Split, AreMonthDays, DistinctNames;
    LookupIs(parts, "BYMONTHDAY");
    forall v
      ensures ParseMonthDays(Split(v, ',')) == Ok(days) <==>
                AreMonthDays(v, days) && forall i :: 0 <= i < |days| ==> days[i] != 0 && -31 <= days[i] <= 31
    {
      MonthDaysRead(v, days);
    }
    forall v ensures !AreMonthDays(v, []) { SomeItem(v); }
  }

  lemma SomeItem(v: string)
    ensures !AreMonthDays(v, [])
  {}

  lemma ByMonthPartIs(parts: seq<Part>, months: seq<int>)
    requires DistinctNames(parts)
    ensures OptionalByMonth(parts) == Ok(months) <==>
              SaysByMonth(parts, months) && forall i :: 0 <= i < |months| ==> 1 <= months[i] <= 12
  {
    hide Lookup, ParseMonths, Split, AreMonths, DistinctNames;
    LookupIs(parts, "BYMONTH");
    forall v
      ensures ParseMonths(Split(v, ',')) == Ok(months) <==>
                AreMonths(v, months) && forall i :: 0 <= i < |months| ==> 1 <= months[i] <= 12
    {
      MonthsRead(v, months);
    }
  }

  lemma WkstIs(parts: seq<Part>, w: Weekday)
    requires DistinctNames(parts)
    ensures OptionalWkst(parts) == Ok(w) <==> SaysWkst(parts, w)
  {
    hide Lookup, ParseWeekday, WeekdayName, DistinctNames;
    LookupIs(parts, "WKST");
    forall v ensures ParseWeekday(v) == Some(w) <==> v == WeekdayName(w) { WeekdayIs(v, w); }
  }

  // --- Which parts there may be ------------------------------------------------------------------------------------

  lemma PartNames(name: string)
    ensures name in SUPPORTED_PARTS <==> IsRulePart(name)
    ensures name in UNSUPPORTED_PARTS <==> IsDeclined(name)
  {}

  lemma {:induction false} NamesChecked(parts: seq<Part>)
    ensures FirstUnsupported(parts).None? <==> forall p :: p in parts ==> !IsDeclined(p.name)
    ensures FirstUnknown(parts).None? <==> forall p :: p in parts ==> IsRulePart(p.name)
  {
    hide SUPPORTED_PARTS, UNSUPPORTED_PARTS, IsRulePart, IsDeclined;
    if parts != [] {
      NamesChecked(parts[1..]);
      PartNames(parts[0].name);
      assert parts == [parts[0]] + parts[1..];
    }
  }

  lemma {:induction false} FirstDeclined(parts: seq<Part>, i: nat)
    requires i < |parts| && IsDeclined(parts[i].name) && forall j :: 0 <= j < i ==> !IsDeclined(parts[j].name)
    ensures FirstUnsupported(parts) == Some(parts[i].name)
    decreases i
  {
    hide SUPPORTED_PARTS, UNSUPPORTED_PARTS, IsDeclined;
    PartNames(parts[0].name);
    if i > 0 { FirstDeclined(parts[1..], i - 1); }
  }

  lemma {:induction false} FirstUnknownPart(parts: seq<Part>, i: nat)
    requires i < |parts| && !IsRulePart(parts[i].name) && forall j :: 0 <= j < i ==> IsRulePart(parts[j].name)
    ensures FirstUnknown(parts) == Some(parts[i].name)
    decreases i
  {
    hide SUPPORTED_PARTS, UNSUPPORTED_PARTS, IsRulePart;
    PartNames(parts[0].name);
    if i > 0 { FirstUnknownPart(parts[1..], i - 1); }
  }

  lemma RulePartsAreNotDeclined(name: string)
    ensures IsRulePart(name) ==> !IsDeclined(name)
  {
    PartNames(name);
    if name in SUPPORTED_PARTS { SupportedNames(name); }
  }

  lemma CheckedIs(parts: seq<Part>, freq: Frequency)
    requires DistinctNames(parts)
    ensures CheckParts(parts) == Ok(freq) <==>
              (forall p :: p in parts ==> IsRulePart(p.name)) && Part("FREQ", FreqName(freq)) in parts
  {
    hide FirstUnsupported, FirstUnknown, Lookup, IsRulePart, IsDeclined, FreqName, ParseFreq, DistinctNames;
    NamesChecked(parts);
    forall p | p in parts ensures IsRulePart(p.name) ==> !IsDeclined(p.name) { RulePartsAreNotDeclined(p.name); }
    LookupIs(parts, "FREQ");
    FreqReadsBack(freq);
    forall v ensures ParseFreq(v) == Some(freq) <==> v == FreqName(freq) { FreqIs(v, freq); }
  }

  // --- The meaning of a text ---------------------------------------------------------------------------------------

  lemma PartsMean(parts: seq<Part>, r: Rule)
    requires DistinctNames(parts)
    ensures ParseParts(parts) == Ok(r) <==> Means(parts, r) && FieldsAllowed(r)
  {
    hide CheckParts, OptionalInterval, OptionalCount, OptionalUntil, OptionalByDay, OptionalByMonthDay, OptionalByMonth,
         OptionalWkst, SaysInterval, SaysCount, SaysUntil, SaysByDay, SaysByMonthDay, SaysByMonth, SaysWkst, IsRulePart,
         DistinctNames, FreqName, OrdinalsAllowed;
    CheckedIs(parts, r.freq);
    IntervalIs(parts, r.interval);
    CountIs(parts, r.count);
    UntilPartIs(parts, r.until);
    ByDayPartIs(parts, r.freq, r.byDay);
    ByMonthDayPartIs(parts, r.freq, r.byMonthDay);
    ByMonthPartIs(parts, r.byMonth);
    WkstIs(parts, r.wkst);
  }

  // The ranges the fields of a rule keep to.
  ghost predicate FieldsAllowed(r: Rule) {
    && r.interval >= 1 && (r.count.Some? ==> r.count.value >= 1 && r.until.None?)
    && OrdinalsAllowed(r.freq, r.byDay)
    && (r.freq.Weekly? ==> r.byMonthDay == [])
    && (forall i :: 0 <= i < |r.byMonthDay| ==> r.byMonthDay[i] != 0 && -31 <= r.byMonthDay[i] <= 31)
    && (forall i :: 0 <= i < |r.byMonth| ==> 1 <= r.byMonth[i] <= 12)
  }

  lemma WellFormedIsAllowed(r: Rule)
    requires WellFormed(r)
    ensures FieldsAllowed(r)
  {
    hide UntilAllowed, OrdinalAllowed;
    forall i | 0 <= i < |r.byMonthDay| ensures r.byMonthDay[i] != 0 && -31 <= r.byMonthDay[i] <= 31 {
      assert r.byMonthDay[i] in r.byMonthDay;
    }
    forall i | 0 <= i < |r.byDay| && r.byDay[i].ordinal.Some? ensures OrdinalAllowed(r.freq, r.byDay[i].ordinal.value) {
      assert r.byDay[i] in r.byDay;
    }
  }

  // A text is accepted as a rule if and only if it says parts that mean the rule, and the rule keeps to the ranges: for
  // every text and every rule, canonical or not.
  lemma ParseIsMeaning(text: string, r: Rule)
    ensures ParseRule(text) == Ok(r) <==> WellFormed(r) && exists parts :: Says(text, parts) && Means(parts, r)
  {
    hide ParseRule, ParseParts, Says, Means, WellFormed, FieldsAllowed, PartsOf, DistinctNames;
    if ParseRule(text) == Ok(r) {
      ParsedRulesAreWellFormed(text);
      var parts := AcceptedParts(text);
      SaysIsParsed(text, parts);
      SaidOnce(text, parts);
      PartsMean(parts, r);
    }
    if WellFormed(r) {
      WellFormedIsAllowed(r);
      forall parts | Says(text, parts) && Means(parts, r) ensures ParseRule(text) == Ok(r) {
        SaysIsParsed(text, parts);
        SaidOnce(text, parts);
        PartsMean(parts, r);
      }
    }
  }

  lemma SaidOnce(text: string, parts: seq<Part>)
    requires Says(text, parts)
    ensures DistinctNames(parts)
  {}

  lemma AcceptedParts(text: string) returns (parts: seq<Part>)
    requires ParseRule(text).Ok?
    ensures PartsOf(text) == Ok(parts)
  {
    hide Trim, StripProperty, ParseSegments, Split, ParseParts;
    parts := PartsOf(text).value;
  }

  // A text whose parts can be read and which holds a part the source declines is refused by the name of the first such.
  lemma DeclinedPartIsNamed(text: string, parts: seq<Part>, i: nat)
    requires Says(text, parts) && i < |parts| && IsDeclined(parts[i].name)
    requires forall j :: 0 <= j < i ==> !IsDeclined(parts[j].name)
    ensures ParseRule(text) == Err(RecurrenceUnsupported(parts[i].name))
  {
    hide ParseRule, Says, FirstUnsupported, FirstUnknown, PartsOf;
    SaysIsParsed(text, parts);
    FirstDeclined(parts, i);
  }

  // One without such a part that holds one that is no rule part at all is refused as invalid, naming the first such.
  lemma UnknownPartIsInvalid(text: string, parts: seq<Part>, i: nat)
    requires Says(text, parts) && i < |parts| && !IsRulePart(parts[i].name)
    requires forall j :: 0 <= j < i ==> IsRulePart(parts[j].name)
    requires forall p :: p in parts ==> !IsDeclined(p.name)
    ensures ParseRule(text) == Err(RecurrenceInvalid(UnknownPart(parts[i].name)))
  {
    hide ParseRule, Says, FirstUnsupported, FirstUnknown, PartsOf, IsDeclined;
    SaysIsParsed(text, parts);
    NamesChecked(parts);
    FirstUnknownPart(parts, i);
  }

  // So is a frequency of RFC 5545 finer than a day.
  lemma FinerFrequencyIsNamed(text: string, parts: seq<Part>, v: string)
    requires Says(text, parts) && (forall p :: p in parts ==> IsRulePart(p.name)) && Part("FREQ", v) in parts
    requires v == "HOURLY" || v == "MINUTELY" || v == "SECONDLY"
    ensures ParseRule(text) == Err(RecurrenceUnsupported("FREQ=" + v))
  {
    hide ParseRule, Says, FirstUnsupported, FirstUnknown, PartsOf, IsRulePart, IsDeclined, Lookup;
    SaysIsParsed(text, parts);
    SaidOnce(text, parts);
    NamesChecked(parts);
    forall p | p in parts ensures !IsDeclined(p.name) { RulePartsAreNotDeclined(p.name); }
    LookupIs(parts, "FREQ");
  }

  // --- Why a text is refused ---------------------------------------------------------------------------------------

  // A text that is nothing but white space, or the value of another property.
  lemma PropertyIsRefused(text: string, body: string, name: string, rest: string)
    requires Stripped(text, body)
    ensures body == "" ==> ParseRule(text) == Err(RecurrenceInvalid(EmptyRule))
    ensures IsPropertyName(name) && Upper(name) != "RRULE" && body == name + ":" + rest ==>
              var property := Upper(name);
              ParseRule(text)
              == Err(if property == "RDATE" || property == "EXDATE" || property == "EXRULE"
                     then RecurrenceUnsupported(property) else RecurrenceInvalid(WrongProperty(property)))
  {
    hide Trim, Stripped, ParseSegments, Split, ParseParts, Upper, IsPropertyName, LetterRun;
    StrippedIsTrim(text, body);
    if IsPropertyName(name) && body == name + ":" + rest { NamedProperty(body, name, rest); }
  }

  // The first segment that is no NAME=VALUE pair, has no value, or repeats a name.
  lemma SegmentIsRefused(text: string, body: string, value: string, segments: seq<string>, parts: seq<Part>,
                         name: string)
    requires Stripped(text, body) && body != "" && PropertyValue(body, value)
    requires |parts| < |segments| && Join(segments, ';') == value
    requires forall i :: 0 <= i < |segments| ==> Without(segments[i], ';')
    requires DistinctNames(parts) && forall i :: 0 <= i < |parts| ==> SegmentIs(segments[i], parts[i])
    ensures var segment := segments[|parts|];
            && (Without(segment, '=') || "=" <= segment ==>
                  ParseRule(text) == Err(RecurrenceInvalid(NotAPair(segment))))
            && (name != "" && Without(name, '=') && segment == name + "=" ==>
                  ParseRule(text) == Err(RecurrenceInvalid(NoValue(Upper(name)))))
            && forall p :: SegmentIs(segment, p) && !Absent(parts, p.name) ==>
                 ParseRule(text) == Err(RecurrenceInvalid(Repeated(p.name)))
  {
    hide Trim, StripProperty, Stripped, PropertyValue, ParseSegments, ParseSegment, Split, Join, ParseParts, Without,
         SegmentIs, Upper, Absent;
    StrippedIsTrim(text, body);
    PropertyIsStripped(body, value);
    SplitIsJoin(value, ';', segments);
    var segment := segments[|parts|];
    SegmentsBefore(segments, parts, 0);
    assert parts[..0] == [] && segments[0..] == segments;
    if Without(segment, '=') || "=" <= segment { NoPair(segment, parts); }
    if name != "" && Without(name, '=') && segment == name + "=" { NoValueThere(segment, parts, name); }
    forall p | SegmentIs(segment, p) && !Absent(parts, p.name)
      ensures ParseSegment(segment, parts) == Invalid(Repeated(p.name))
    {
      RepeatedThere(segment, parts, p);
    }
  }

  lemma {:induction false} SegmentsBefore(segments: seq<string>, parts: seq<Part>, i: nat)
    requires i <= |parts| < |segments| && DistinctNames(parts)
    requires forall j :: 0 <= j < |parts| ==> SegmentIs(segments[j], parts[j])
    ensures ParseSegment(segments[|parts|], parts).Err? ==>
              ParseSegments(segments[i..], parts[..i]) == Err(ParseSegment(segments[|parts|], parts).error)
    decreases |parts| - i
  {
    hide ParseSegment, SegmentIs;
    if i < |parts| {
      SegmentIsParsed(segments[i], parts[..i], parts[i]);
      SegmentsBefore(segments, parts, i + 1);
      assert segments[i..][1..] == segments[i + 1..] && parts[..i] + [parts[i]] == parts[..i + 1];
    } else {
      assert parts[..i] == parts;
    }
  }

  lemma NoPair(segment: string, seen: seq<Part>)
    requires Without(segment, '=') || "=" <= segment
    ensures ParseSegment(segment, seen) == Invalid(NotAPair(segment))
  {
    EqualsIs(segment, '=');
  }

  lemma NoValueThere(segment: string, seen: seq<Part>, name: string)
    requires name != "" && Without(name, '=') && segment == name + "="
    ensures ParseSegment(segment, seen) == Invalid(NoValue(Upper(name)))
  {
    hide IndexOf, Lookup;
    assert segment == name + "=" + "";
    FindsFirst(name, '=', "");
    assert segment[..|name|] == name;
  }

  lemma RepeatedThere(segment: string, seen: seq<Part>, p: Part)
    requires SegmentIs(segment, p) && !Absent(seen, p.name)
    ensures ParseSegment(segment, seen) == Invalid(Repeated(p.name))
  {
    hide IndexOf, Lookup, Absent;
    var name, value :| name != "" && value != "" && Without(name, '=') && segment == name + "=" + value
                       && p == Part(Upper(name), Upper(value));
    FindsFirst(name, '=', value);
    assert segment[..|name|] == name && segment[|name| + 1..] == value;
    LookupIs(seen, p.name);
  }

  // A BYDAY value that is not one, or whose ordinal is out of range or has no place in the rule.
  ghost predicate ByDayFault(freq: Frequency, item: string, e: RuleError) {
    if forall b :: !IsByDay(item, b) then e == RecurrenceInvalid(BadWeekday(item))
    else
      exists b, o :: IsByDay(item, b) && b.ordinal == Some(o) && !OrdinalAllowed(freq, o)
                     && e == RecurrenceInvalid(if o == 0 || o > 53 || o < -53 then OrdinalRange(item)
                                               else if freq.Daily? || freq.Weekly? then OrdinalFrequency
                                               else MonthlyOrdinal)
  }

  lemma ByDayRefused(freq: Frequency, item: string)
    requires ParseByDay(freq, item).Err?
    ensures ByDayFault(freq, item, ParseByDay(freq, item).error)
  {
    hide ParseSigned, ParseWeekday, IsSigned, WeekdayName;
    if b :| IsByDay(item, b) {
      ItemIsByDay(item, b);
      if b.ordinal.None? { ByDayIs(freq, item, b); }
    } else {
      SomeByDay(item);
    }
  }

  lemma SomeByDay(item: string)
    ensures (|item| >= 2 && ParseWeekday(item[|item| - 2..]).Some?
             && (item[..|item| - 2] == "" || ParseSigned(item[..|item| - 2]).Some?)) ==>
              exists b :: IsByDay(item, b)
  {
    hide ParseSigned, ParseWeekday, IsSigned, WeekdayName;
    if |item| >= 2 && ParseWeekday(item[|item| - 2..]).Some? {
      var number, name := item[..|item| - 2], item[|item| - 2..];
      assert item == number + name;
      var weekday := ParseWeekday(name).value;
      WeekdayIs(name, weekday);
      if number == "" {
        assert item == name && IsByDay(item, ByDay(weekday, None));
      } else if ParseSigned(number).Some? {
        SignedIs(number, ParseSigned(number).value);
        assert IsByDay(item, ByDay(weekday, ParseSigned(number)));
      }
    }
  }

  lemma ItemIsByDay(item: string, b: ByDay)
    requires IsByDay(item, b)
    ensures |item| >= 2 && ParseWeekday(item[|item| - 2..]) == Some(b.weekday)
    ensures b.ordinal.Some? ==> item[..|item| - 2] != "" && ParseSigned(item[..|item| - 2]) == b.ordinal
  {
    hide ParseSigned, ParseWeekday, IsSigned, WeekdayName;
    match b.ordinal
    case None =>
      assert item[|item| - 2..] == item;
      WeekdayIs(item, b.weekday);
    case Some(o) =>
      var number :| IsSigned(number, o) && item == number + WeekdayName(b.weekday);
      assert item[..|item| - 2] == number && item[|item| - 2..] == WeekdayName(b.weekday);
      WeekdayIs(WeekdayName(b.weekday), b.weekday);
      SignedIs(number, o);
      NotSigned();
  }

  ghost predicate MonthDayFault(item: string, e: RuleError) {
    e == RecurrenceInvalid(if forall n :: !IsSigned(item, n) then BadMonthDay(item) else MonthDayRange)
  }

  lemma MonthDayRefused(item: string)
    requires ParseMonthDay(item).Err?
    ensures MonthDayFault(item, ParseMonthDay(item).error)
  {
    hide ParseSigned, IsSigned;
    forall n ensures ParseSigned(item) == Some(n) <==> IsSigned(item, n) { SignedIs(item, n); }
  }

  // The fault of a list is that of its first faulty item.
  lemma {:induction false} ByDaysRefused(freq: Frequency, items: seq<string>) returns (i: nat)
    requires ParseByDays(freq, items).Err?
    ensures i < |items| && ParseByDay(freq, items[i]).Err? && ByDayFault(freq, items[i], ParseByDays(freq, items).error)
    ensures forall j :: 0 <= j < i ==> ParseByDay(freq, items[j]).Ok?
  {
    hide ParseByDay, ByDayFault;
    if ParseByDay(freq, items[0]).Err? {
      ByDayRefused(freq, items[0]);
      i := 0;
    } else {
      i := ByDaysRefused(freq, items[1..]);
      i := i + 1;
    }
  }

  lemma {:induction false} MonthDaysRefused(items: seq<string>) returns (i: nat)
    requires ParseMonthDays(items).Err?
    ensures i < |items| && ParseMonthDay(items[i]).Err? && MonthDayFault(items[i], ParseMonthDays(items).error)
    ensures forall j :: 0 <= j < i ==> ParseMonthDay(items[j]).Ok?
  {
    hide ParseMonthDay, MonthDayFault;
    if ParseMonthDay(items[0]).Err? {
      MonthDayRefused(items[0]);
      i := 0;
    } else {
      i := MonthDaysRefused(items[1..]);
      i := i + 1;
    }
  }

  lemma {:induction false} MonthsRefused(items: seq<string>) returns (i: nat)
    requires ParseMonths(items).Err?
    ensures i < |items| && ParseMonth(items[i]).Err? && ParseMonths(items) == Invalid(BadMonth(items[i]))
    ensures forall j :: 0 <= j < i ==> ParseMonth(items[j]).Ok?
  {
    hide NumberOf;
    if ParseMonth(items[0]).Err? {
      i := 0;
    } else {
      i := MonthsRefused(items[1..]);
      i := i + 1;
    }
  }

  // What is wrong with a text whose parts are rule parts all: the first fault in the order of FREQ, INTERVAL, COUNT,
  // UNTIL, the two together, BYDAY, BYMONTHDAY, BYMONTH and WKST.
  ghost predicate FirstWrong(parts: seq<Part>, e: RuleError) {
    if Absent(parts, "FREQ") then e == RecurrenceInvalid(FreqRequired)
    else if forall f :: Part("FREQ", FreqName(f)) !in parts then
      exists v :: Part("FREQ", v) in parts
                  && e == if v == "HOURLY" || v == "MINUTELY" || v == "SECONDLY" then RecurrenceUnsupported("FREQ=" + v)
                          else RecurrenceInvalid(UnknownFreq(v))
    else if forall n :: SaysInterval(parts, n) ==> n < 1 then e == RecurrenceInvalid(BadInterval)
    else if forall c :: SaysCount(parts, c) ==> c.Some? && c.value < 1 then e == RecurrenceInvalid(BadCount)
    else if forall u :: !SaysUntil(parts, u) then e == RecurrenceInvalid(BadUntil)
    else if !Absent(parts, "COUNT") && !Absent(parts, "UNTIL") then e == RecurrenceInvalid(CountAndUntil)
    else exists f :: Part("FREQ", FreqName(f)) in parts && ListsWrong(parts, f, e)
  }

  ghost predicate DaysInRange(days: seq<int>) {
    forall i :: 0 <= i < |days| ==> days[i] != 0 && -31 <= days[i] <= 31
  }

  ghost predicate MonthsInRange(months: seq<int>) { forall i :: 0 <= i < |months| ==> 1 <= months[i] <= 12 }

  ghost predicate GoodByDay(f: Frequency, item: string) {
    exists b :: IsByDay(item, b) && (b.ordinal.Some? ==> OrdinalAllowed(f, b.ordinal.value))
  }

  ghost predicate GoodMonthDay(item: string) { exists n :: IsSigned(item, n) && n != 0 && -31 <= n <= 31 }

  ghost predicate GoodMonth(item: string) { exists n :: |item| <= 2 && IsNumeral(item, n) && 1 <= n <= 12 }

  // The first faulty item of a list is the one named.
  ghost predicate ByDayWrong(parts: seq<Part>, f: Frequency, e: RuleError) {
    exists v, items, i :: Part("BYDAY", v) in parts && Items(v, items) && 0 <= i < |items| && !GoodByDay(f, items[i])
                          && ByDayFault(f, items[i], e) && forall j :: 0 <= j < i ==> GoodByDay(f, items[j])
  }

  ghost predicate ByMonthDayWrong(parts: seq<Part>, e: RuleError) {
    exists v, items, i :: Part("BYMONTHDAY", v) in parts && Items(v, items) && 0 <= i < |items|
                          && !GoodMonthDay(items[i]) && MonthDayFault(items[i], e)
                          && forall j :: 0 <= j < i ==> GoodMonthDay(items[j])
  }

  ghost predicate ByMonthWrong(parts: seq<Part>, e: RuleError) {
    exists v, items, i :: Part("BYMONTH", v) in parts && Items(v, items) && 0 <= i < |items| && !GoodMonth(items[i])
                          && e == RecurrenceInvalid(BadMonth(items[i]))
                          && forall j :: 0 <= j < i ==> GoodMonth(items[j])
  }

  ghost predicate ListsWrong(parts: seq<Part>, f: Frequency, e: RuleError) {
    if forall d :: SaysByDay(parts, d) ==> !OrdinalsAllowed(f, d) then ByDayWrong(parts, f, e)
    else if f.Weekly? && !Absent(parts, "BYMONTHDAY") then e == RecurrenceInvalid(MonthDayWeekly)
    else if forall d :: SaysByMonthDay(parts, d) ==> !DaysInRange(d) then ByMonthDayWrong(parts, e)
    else if forall m :: SaysByMonth(parts, m) ==> !MonthsInRange(m) then ByMonthWrong(parts, e)
    else exists v :: Part("WKST", v) in parts && e == RecurrenceInvalid(BadWkst(v))
  }

  lemma FreqRefused(parts: seq<Part>)
    requires DistinctNames(parts) && (forall p :: p in parts ==> IsRulePart(p.name)) && CheckParts(parts).Err?
    ensures FirstWrong(parts, CheckParts(parts).error)
  {
    hide FirstUnsupported, FirstUnknown, Lookup, IsRulePart, IsDeclined, FreqName, ParseFreq, DistinctNames, ListsWrong,
         SaysInterval, SaysCount, SaysUntil;
    NamesChecked(parts);
    forall p | p in parts ensures !IsDeclined(p.name) { RulePartsAreNotDeclined(p.name); }
    LookupIs(parts, "FREQ");
    forall f ensures CheckParts(parts) != Ok(f) && Part("FREQ", FreqName(f)) !in parts { CheckedIs(parts, f); }
  }

  lemma ScalarsRefused(parts: seq<Part>)
    requires DistinctNames(parts)
    ensures OptionalInterval(parts).Err? ==>
              OptionalInterval(parts) == Invalid(BadInterval) && forall n :: SaysInterval(parts, n) ==> n < 1
    ensures OptionalCount(parts).Err? ==>
              OptionalCount(parts) == Invalid(BadCount)
              && forall c :: SaysCount(parts, c) ==> c.Some? && c.value < 1
    ensures OptionalUntil(parts).Err? ==>
              OptionalUntil(parts) == Invalid(BadUntil) && forall u :: !SaysUntil(parts, u)
    ensures OptionalWkst(parts).Err? ==>
              exists v :: Part("WKST", v) in parts && OptionalWkst(parts) == Invalid(BadWkst(v))
  {
    hide Lookup, ParsePositiveInteger, ParseUntil, ParseWeekday, SaysInterval, SaysCount, SaysUntil, DistinctNames;
    forall n ensures OptionalInterval(parts) == Ok(n) <==> SaysInterval(parts, n) && n >= 1 { IntervalIs(parts, n); }
    forall c ensures OptionalCount(parts) == Ok(c) <==> SaysCount(parts, c) && (c.Some? ==> c.value >= 1) {
      CountIs(parts, c);
    }
    forall u ensures OptionalUntil(parts) == Ok(u) <==> SaysUntil(parts, u) { UntilPartIs(parts, u); }
    LookupIs(parts, "WKST");
  }

  lemma ByDayPartRefused(parts: seq<Part>, f: Frequency)
    requires DistinctNames(parts) && OptionalByDay(parts, f).Err?
    ensures ByDayWrong(parts, f, OptionalByDay(parts, f).error)
    ensures forall d :: SaysByDay(parts, d) ==> !OrdinalsAllowed(f, d)
  {
    hide Lookup, ParseByDays, ParseByDay, Split, Items, IsByDay, OrdinalAllowed, DistinctNames, ByDayFault, SaysByDay,
         OrdinalsAllowed;
    forall d ensures OptionalByDay(parts, f) == Ok(d) <==> SaysByDay(parts, d) && OrdinalsAllowed(f, d) {
      ByDayPartIs(parts, f, d);
    }
    LookupIs(parts, "BYDAY");
    var v := Lookup(parts, "BYDAY").value;
    var items := Split(v, ',');
    ItemsAreSplit(v, items);
    var i := ByDaysRefused(f, items);
    forall j | 0 <= j <= i
      ensures GoodByDay(f, items[j]) <==> ParseByDay(f, items[j]).Ok?
    {
      forall b
        ensures ParseByDay(f, items[j]) == Ok(b) <==>
                  IsByDay(items[j], b) && (b.ordinal.Some? ==> OrdinalAllowed(f, b.ordinal.value))
      {
        ByDayIs(f, items[j], b);
      }
    }
  }

  lemma ByMonthDayPartRefused(parts: seq<Part>, f: Frequency)
    requires DistinctNames(parts) && OptionalByMonthDay(parts, f).Err?
    ensures if f.Weekly? && !Absent(parts, "BYMONTHDAY") then
              OptionalByMonthDay(parts, f) == Invalid(MonthDayWeekly)
            else
              ByMonthDayWrong(parts, OptionalByMonthDay(parts, f).error)
              && forall d :: SaysByMonthDay(parts, d) ==> !DaysInRange(d)
  {
    hide Lookup, ParseMonthDays, ParseMonthDay, Split, Items, IsSigned, DistinctNames, MonthDayFault, SaysByMonthDay;
    LookupIs(parts, "BYMONTHDAY");
    if !f.Weekly? {
      forall d ensures OptionalByMonthDay(parts, f) == Ok(d) <==> SaysByMonthDay(parts, d) && DaysInRange(d) {
        ByMonthDayPartIs(parts, f, d);
      }
      var v := Lookup(parts, "BYMONTHDAY").value;
      var items := Split(v, ',');
      ItemsAreSplit(v, items);
      var i := MonthDaysRefused(items);
      forall j | 0 <= j <= i ensures GoodMonthDay(items[j]) <==> ParseMonthDay(items[j]).Ok? {
        GoodMonthDayIs(items[j]);
      }
    }
  }

  lemma ByMonthPartRefused(parts: seq<Part>)
    requires DistinctNames(parts) && OptionalByMonth(parts).Err?
    ensures ByMonthWrong(parts, OptionalByMonth(parts).error)
    ensures forall m :: SaysByMonth(parts, m) ==> !MonthsInRange(m)
  {
    hide Lookup, ParseMonths, ParseMonth, Split, Items, IsNumeral, DistinctNames, SaysByMonth;
    forall m ensures OptionalByMonth(parts) == Ok(m) <==> SaysByMonth(parts, m) && MonthsInRange(m) {
      ByMonthPartIs(parts, m);
    }
    LookupIs(parts, "BYMONTH");
    var v := Lookup(parts, "BYMONTH").value;
    var items := Split(v, ',');
    ItemsAreSplit(v, items);
    var i := MonthsRefused(items);
    forall j | 0 <= j <= i ensures GoodMonth(items[j]) <==> ParseMonth(items[j]).Ok? { GoodMonthIs(items[j]); }
  }

  lemma GoodMonthDayIs(item: string)
    ensures GoodMonthDay(item) <==> ParseMonthDay(item).Ok?
  {
    hide ParseMonthDay, IsSigned;
    if ParseMonthDay(item).Ok? { MonthDayIs(item, ParseMonthDay(item).value); }
    if n :| IsSigned(item, n) && n != 0 && -31 <= n <= 31 { MonthDayIs(item, n); }
  }

  lemma GoodMonthIs(item: string)
    ensures GoodMonth(item) <==> ParseMonth(item).Ok?
  {
    hide ParseMonth, IsNumeral;
    if ParseMonth(item).Ok? { MonthIs(item, ParseMonth(item).value); }
    if n :| |item| <= 2 && IsNumeral(item, n) && 1 <= n <= 12 { MonthIs(item, n); }
  }

  lemma ListsRefused(parts: seq<Part>, f: Frequency)
    requires DistinctNames(parts)
    ensures OptionalByDay(parts, f).Err? ==> ListsWrong(parts, f, OptionalByDay(parts, f).error)
    ensures OptionalByDay(parts, f).Ok? && OptionalByMonthDay(parts, f).Err? ==>
              ListsWrong(parts, f, OptionalByMonthDay(parts, f).error)
    ensures OptionalByDay(parts, f).Ok? && OptionalByMonthDay(parts, f).Ok? && OptionalByMonth(parts).Err? ==>
              ListsWrong(parts, f, OptionalByMonth(parts).error)
    ensures (OptionalByDay(parts, f).Ok? && OptionalByMonthDay(parts, f).Ok? && OptionalByMonth(parts).Ok?
             && OptionalWkst(parts).Err?) ==>
              ListsWrong(parts, f, OptionalWkst(parts).error)
  {
    hide OptionalByDay, OptionalByMonthDay, OptionalByMonth, OptionalWkst, SaysByDay, SaysByMonthDay, SaysByMonth,
         DistinctNames, ByDayWrong, ByMonthDayWrong, ByMonthWrong, OrdinalsAllowed, DaysInRange, MonthsInRange;
    if OptionalByDay(parts, f).Err? {
      ByDayPartRefused(parts, f);
    } else {
      ByDayPartIs(parts, f, OptionalByDay(parts, f).value);
      if OptionalByMonthDay(parts, f).Err? {
        ByMonthDayPartRefused(parts, f);
      } else {
        MonthDayPartSaid(parts, f, OptionalByMonthDay(parts, f).value);
        if OptionalByMonth(parts).Err? {
          ByMonthPartRefused(parts);
        } else {
          MonthPartSaid(parts, OptionalByMonth(parts).value);
          ScalarsRefused(parts);
        }
      }
    }
  }

  lemma MonthDayPartSaid(parts: seq<Part>, f: Frequency, days: seq<int>)
    requires DistinctNames(parts) && OptionalByMonthDay(parts, f) == Ok(days)
    ensures SaysByMonthDay(parts, days) && DaysInRange(days) && (f.Weekly? ==> Absent(parts, "BYMONTHDAY"))
  {
    hide ParseMonthDays, Split, AreMonthDays, DistinctNames, Lookup;
    ByMonthDayPartIs(parts, f, days);
    LookupIs(parts, "BYMONTHDAY");
  }

  lemma MonthPartSaid(parts: seq<Part>, months: seq<int>)
    requires DistinctNames(parts) && OptionalByMonth(parts) == Ok(months)
    ensures SaysByMonth(parts, months) && MonthsInRange(months)
  {
    hide ParseMonths, Split, AreMonths, DistinctNames, Lookup;
    ByMonthPartIs(parts, months);
  }

  lemma CountSaid(parts: seq<Part>)
    requires DistinctNames(parts)
    ensures OptionalCount(parts).Ok? ==> (OptionalCount(parts).value.Some? <==> !Absent(parts, "COUNT"))
    ensures OptionalUntil(parts).Ok? ==> (OptionalUntil(parts).value.Some? <==> !Absent(parts, "UNTIL"))
  {
    hide DistinctNames, Lookup;
    LookupIs(parts, "COUNT");
    LookupIs(parts, "UNTIL");
  }

  // A refusal names the first fault, in the order of the checks.
  lemma RefusedInOrder(text: string, parts: seq<Part>)
    requires Says(text, parts) && (forall p :: p in parts ==> IsRulePart(p.name)) && ParseRule(text).Err?
    ensures FirstWrong(parts, ParseRule(text).error)
  {
    hide ParseRule, Says, PartsOf, CheckParts, OptionalInterval, OptionalCount, OptionalUntil, OptionalByDay,
         OptionalByMonthDay, OptionalByMonth, OptionalWkst, SaysInterval, SaysCount, SaysUntil, ListsWrong, IsRulePart,
         DistinctNames, FreqName;
    SaysIsParsed(text, parts);
    SaidOnce(text, parts);
    if CheckParts(parts).Err? {
      FreqRefused(parts);
    } else {
      var f := CheckParts(parts).value;
      CheckedIs(parts, f);
      ScalarsRefused(parts);
      if OptionalInterval(parts).Ok? { IntervalIs(parts, OptionalInterval(parts).value); }
      if OptionalCount(parts).Ok? { CountIs(parts, OptionalCount(parts).value); }
      if OptionalUntil(parts).Ok? { UntilPartIs(parts, OptionalUntil(parts).value); }
      CountSaid(parts);
      ListsRefused(parts, f);
    }
  }

  // --- The canonical text ------------------------------------------------------------------------------------------

  function Position(name: string): int {
    if name == "FREQ" then 0 else if name == "INTERVAL" then 1 else if name == "COUNT" then 2
    else if name == "UNTIL" then 3 else if name == "BYMONTH" then 4 else if name == "BYMONTHDAY" then 5
    else if name == "BYDAY" then 6 else 7
  }

  // The fixed order, nothing said that is the default anyway, and numbers without leading zeros.
  ghost predicate Canonical(parts: seq<Part>) {
    && (forall i, j :: 0 <= i < j < |parts| ==> Position(parts[i].name) < Position(parts[j].name))
    && Part("INTERVAL", "1") !in parts && Part("WKST", "MO") !in parts
    && forall p :: p in parts && (p.name == "INTERVAL" || p.name == "COUNT") ==> p.value != "" && p.value[0] != '0'
  }

  lemma {:induction false} LeadingDigit(n: int)
    requires n >= 1
    ensures DigitsOf(n)[0] != '0'
  {
    if n >= 10 { LeadingDigit(n / 10); }
  }

  ghost predicate InOrder(fields: seq<Field>) {
    forall i, j :: 0 <= i < j < |fields| ==> Position(fields[i].name) < Position(fields[j].name)
  }

  lemma {:induction false} PresentInOrder(fields: seq<Field>)
    requires InOrder(fields)
    ensures var parts := Present(fields);
            && (forall i, j :: 0 <= i < j < |parts| ==> Position(parts[i].name) < Position(parts[j].name))
            && forall p :: p in parts ==> Field(p.name, Some(p.value)) in fields
  {
    hide Position;
    if fields != [] {
      PresentInOrder(fields[1..]);
      var first := if fields[0].value.Some? then [Part(fields[0].name, fields[0].value.value)] else [];
      var rest := Present(fields[1..]);
      assert fields == [fields[0]] + fields[1..] && Present(fields) == first + rest;
      forall i | 0 <= i < |rest| ensures Position(fields[0].name) < Position(rest[i].name) {
        assert rest[i] in rest;
        var j :| 0 <= j < |fields[1..]| && fields[1..][j] == Field(rest[i].name, Some(rest[i].value));
        assert fields[j + 1] == fields[1..][j];
      }
      forall i, j | 0 <= i < j < |first + rest|
        ensures Position((first + rest)[i].name) < Position((first + rest)[j].name)
      {
        assert (first + rest)[j] == rest[j - |first|];
        if i >= |first| { assert (first + rest)[i] == rest[i - |first|]; }
      }
    }
  }

  lemma FieldsInOrder(r: Rule)
    requires WellFormed(r)
    ensures InOrder(Fields(r))
    ensures Field("INTERVAL", Some("1")) !in Fields(r) && Field("WKST", Some("MO")) !in Fields(r)
    ensures forall v :: Field("INTERVAL", Some(v)) in Fields(r) || Field("COUNT", Some(v)) in Fields(r) ==>
              v != "" && v[0] != '0'
  {
    hide Join, PrintUntil, FreqName, UntilAllowed, OrdinalAllowed, DigitsOf;
    FieldPositions(r);
    LeadingDigit(r.interval);
    DigitsReadBack(r.interval);
    OneReadsAsOne();
    if r.count.Some? { LeadingDigit(r.count.value); }
  }

  lemma OneReadsAsOne()
    ensures AllDigits("1") && NumberOf("1") == 1
  {
    assert "1"[..0] == "";
  }

  lemma FieldPositions(r: Rule)
    requires WellFormed(r)
    ensures |Fields(r)| == 8 && forall i :: 0 <= i < 8 ==> Position(Fields(r)[i].name) == i
  {
    hide Join, PrintUntil, StringOf, FreqName, WeekdayName, UntilAllowed, OrdinalAllowed;
    assert Fields(r)[0].name == "FREQ" && Fields(r)[1].name == "INTERVAL" && Fields(r)[2].name == "COUNT";
    assert Fields(r)[3].name == "UNTIL" && Fields(r)[4].name == "BYMONTH" && Fields(r)[5].name == "BYMONTHDAY";
    assert Fields(r)[6].name == "BYDAY" && Fields(r)[7].name == "WKST";
  }

  lemma PrintedSays(r: Rule)
    requires WellFormed(r)
    ensures Says(PrintRule(r), Present(Fields(r))) && Means(Present(Fields(r)), r)
  {
    hide PrintRule, Fields, Present, Says, Means, ParseRule, ParseParts, WellFormed, FieldsAllowed, DistinctNames, Trim,
         StripProperty, ParseSegments, Split;
    var parts := Present(Fields(r));
    PrintedParts(r);
    SaysIsParsed(PrintRule(r), parts);
    ParseUndoesPrint(r);
    SaidOnce(PrintRule(r), parts);
    PartsMean(parts, r);
  }

  lemma PrintedIsCanonical(r: Rule)
    requires WellFormed(r)
    ensures Canonical(Present(Fields(r)))
  {
    hide Fields, Present, WellFormed, Position;
    FieldsInOrder(r);
    PresentInOrder(Fields(r));
  }

  // What a rule prints is the canonical text that means it, without white space or property name.
  lemma PrintsCanonically(r: Rule)
    requires WellFormed(r)
    ensures exists parts :: && Says(PrintRule(r), parts) && Means(parts, r) && Canonical(parts)
                            && PrintRule(r) == Join(PartTexts(parts), ';')
  {
    hide Fields, Present, Says, Means, WellFormed, Canonical, Join, PartTexts;
    PrintedSays(r);
    PrintedIsCanonical(r);
  }
}
