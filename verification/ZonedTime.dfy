// Local wall-clock time and instants: packages/kernel/src/recurrence/zoned-time.ts. Instants are milliseconds since
// 1970-01-01T00:00:00Z; offsets and local readings are whole seconds.
module ZonedTime {
  import opened CivilDate

  const DAY: int := 86400
  const MS_PER_DAY: int := 86_400_000

  // A time zone is the offset east of UTC it observes in each second. The runtime's zone data is not modelled.
  datatype Zone = Zone(offset: int -> int)

  ghost predicate Window(a: int, b: int, c: int) { a <= b <= c <= a + 2 * DAY }

  // What the resolution method relies on: an offset is less than a day, a clock never jumps by a day, and no zone
  // changes offset twice within 48 hours.
  ghost predicate Lawful(z: Zone) {
    && (forall s :: -DAY < z.offset(s) < DAY)
    && (forall s :: -DAY < z.offset(s + 1) - z.offset(s) < DAY)
    && (forall a, b, c {:trigger Window(a, b, c)} ::
          Window(a, b, c) ==> z.offset(b) == z.offset(a) || z.offset(b) == z.offset(c))
  }

  function Second(t: int): int { t / 1000 }

  // What a clock in the zone shows at an instant, in seconds.
  function Reading(t: int, z: Zone): int { Second(t) + z.offset(Second(t)) }

  function InstantToLocal(t: int, z: Zone): (l: LocalDateTime)
    ensures Gregorian(l.date) && TimeOfDay(l)
  {
    FromLocalSeconds(Reading(t, z))
  }

  // zoned-time.ts offsetMinutesAt, in seconds.
  function OffsetAt(t: int, z: Zone): int {
    LocalAsUtc(InstantToLocal(1000 * Second(t), z)) - Second(t)
  }

  // zoned-time.ts localToInstant: the two offsets a day either side, the candidates that read back, the earliest.
  function LocalToInstant(l: LocalDateTime, z: Zone): int
    requires 1 <= l.date.month <= 12
  {
    var pivot := LocalAsUtc(l);
    var before := 1000 * (pivot - OffsetAt(1000 * (pivot - DAY), z));
    var after := 1000 * (pivot - OffsetAt(1000 * (pivot + DAY), z));
    var beforeReal := InstantToLocal(before, z) == l;
    var afterReal := InstantToLocal(after, z) == l;
    if beforeReal && afterReal then (if before <= after then before else after)
    else if beforeReal then before
    else if afterReal then after
    else before
  }

  function StartOfDay(d: LocalDate, z: Zone): int
    requires 1 <= d.month <= 12
  {
    LocalToInstant(LocalDateTime(d, 0, 0, 0), z)
  }

  // The readings the engine resolves: real dates from year 1 on.
  predicate Usable(l: LocalDateTime) { Gregorian(l.date) && l.date.year >= 1 && TimeOfDay(l) }

  const FIRST_USABLE_DAY: int := -719162

  lemma UsableDays(d: LocalDate)
    requires Gregorian(d)
    ensures d.year >= 1 <==> DayNumber(d) >= FIRST_USABLE_DAY
    ensures d.year >= 1 ==> Proper(d) && ToEpochDay(d) == DayNumber(d)
  {
    var first := LocalDate(1, 1, 1);
    assert DayNumber(first) == FIRST_USABLE_DAY;
    DayNumbersOrderDates(d, first);
    DayNumbersOrderDates(first, d);
    if d.year >= 1 { ProperEpoch(d); }
  }

  // The method on plain seconds.
  function Resolve(p: int, z: Zone): int {
    var before := p - z.offset(p - DAY);
    var after := p - z.offset(p + DAY);
    var beforeReal := before + z.offset(before) == p;
    var afterReal := after + z.offset(after) == p;
    if beforeReal && afterReal then (if before <= after then before else after)
    else if beforeReal then before
    else if afterReal then after
    else before
  }

  lemma OffsetsReadBack(t: int, z: Zone)
    requires Lawful(z) && Second(t) >= DAY * (FIRST_PROPER_DAY + 2)
    ensures OffsetAt(t, z) == z.offset(Second(t))
  {
    hide DayNumber, MonthLength, FromLocalSeconds, ToEpochDay;
    var l := InstantToLocal(1000 * Second(t), z);
    assert Reading(1000 * Second(t), z) == Second(t) + z.offset(Second(t));
    ProperDays(l.date);
    ProperEpoch(l.date);
  }

  lemma ReadsAs(t: int, l: LocalDateTime, z: Zone)
    requires Usable(l)
    ensures InstantToLocal(t, z) == l <==> Reading(t, z) == LocalAsUtc(l)
  {
    UsableDays(l.date);
    ReadingsRoundTrip(l, Reading(t, z));
  }

  lemma UsableReading(l: LocalDateTime)
    requires Usable(l)
    ensures LocalAsUtc(l) == DAY * ToEpochDay(l.date) + SecondOfDay(l) >= DAY * FIRST_USABLE_DAY
    ensures 0 <= SecondOfDay(l) < DAY
  {
    UsableDays(l.date);
  }

  lemma OffsetAtSecond(s: int, z: Zone)
    requires Lawful(z) && s >= DAY * (FIRST_PROPER_DAY + 2)
    ensures OffsetAt(1000 * s, z) == z.offset(s)
  {
    assert Second(1000 * s) == s;
    OffsetsReadBack(1000 * s, z);
  }

  lemma ReadsAtSecond(s: int, l: LocalDateTime, z: Zone)
    requires Usable(l)
    ensures InstantToLocal(1000 * s, z) == l <==> s + z.offset(s) == LocalAsUtc(l)
  {
    assert Second(1000 * s) == s;
    ReadsAs(1000 * s, l, z);
  }

  // The choice between the two candidates, in seconds.
  lemma ChosenInSeconds(l: LocalDateTime, z: Zone, before: int, after: int)
    requires 1 <= l.date.month <= 12
    requires var p := LocalAsUtc(l);
             OffsetAt(1000 * (p - DAY), z) == p - before && OffsetAt(1000 * (p + DAY), z) == p - after
    ensures var beforeReal, afterReal := InstantToLocal(1000 * before, z) == l, InstantToLocal(1000 * after, z) == l;
            LocalToInstant(l, z) == 1000 * if afterReal && (!beforeReal || after < before) then after else before
  {
    hide InstantToLocal, LocalAsUtc, OffsetAt;
  }

  lemma Candidate(l: LocalDateTime, z: Zone, at: int)
    requires Lawful(z) && Usable(l) && at >= LocalAsUtc(l) - DAY
    ensures OffsetAt(1000 * at, z) == z.offset(at)
    ensures var s := LocalAsUtc(l) - z.offset(at);
            InstantToLocal(1000 * s, z) == l <==> s + z.offset(s) == LocalAsUtc(l)
  {
    hide InstantToLocal, LocalAsUtc, OffsetAt, Lawful;
    UsableReading(l);
    OffsetAtSecond(at, z);
    ReadsAtSecond(LocalAsUtc(l) - z.offset(at), l, z);
  }

  lemma ResolvesInSeconds(l: LocalDateTime, z: Zone)
    requires Lawful(z) && Usable(l)
    ensures LocalToInstant(l, z) == 1000 * Resolve(LocalAsUtc(l), z)
  {
    hide InstantToLocal, LocalAsUtc, OffsetAt, LocalToInstant, Lawful;
    var p := LocalAsUtc(l);
    Candidate(l, z, p - DAY);
    Candidate(l, z, p + DAY);
    ChosenInSeconds(l, z, p - z.offset(p - DAY), p - z.offset(p + DAY));
  }

  // Two seconds at most 48 hours apart see at most one jump.
  lemma OneJump(a: int, b: int, z: Zone) returns (change: int)
    requires Lawful(z) && a <= b <= a + 2 * DAY && z.offset(a) != z.offset(b)
    ensures a < change <= b
    ensures forall s :: a <= s < change ==> z.offset(s) == z.offset(a)
    ensures forall s :: change <= s <= b ==> z.offset(s) == z.offset(b)
    ensures -DAY < z.offset(b) - z.offset(a) < DAY
  {
    change := a;
    while z.offset(change) == z.offset(a)
      invariant a <= change <= b
      invariant forall s :: a <= s < change ==> z.offset(s) == z.offset(a)
      decreases b - change
    {
      change := change + 1;
    }
    assert Window(a, change, b);
    assert -DAY < z.offset(change - 1 + 1) - z.offset(change - 1) < DAY;
    forall s | change <= s <= b ensures z.offset(s) == z.offset(b) {
      assert Window(a, change, s) && Window(a, s, b);
    }
  }

  lemma SmallDifference(a: int, b: int, z: Zone)
    requires Lawful(z) && a <= b <= a + 2 * DAY
    ensures -DAY < z.offset(b) - z.offset(a) < DAY
  {
    if z.offset(a) != z.offset(b) { var _ := OneJump(a, b, z); }
  }

  lemma ResolveIsLeast(p: int, s: int, z: Zone)
    requires Lawful(z) && s + z.offset(s) == p
    ensures Resolve(p, z) + z.offset(Resolve(p, z)) == p && Resolve(p, z) <= s
  {
    assert Window(p - DAY, s, p + DAY);
    var r := Resolve(p, z);
    assert Window(p - DAY, r, p + DAY);
  }

  // A reading the clock skips: it lies inside a jump, and the result is that jump's width later on the clock.
  lemma ResolveInGap(p: int, z: Zone) returns (change: int, width: int)
    requires Lawful(z) && Resolve(p, z) + z.offset(Resolve(p, z)) != p
    ensures z.offset(change) == z.offset(change - 1) + width && 0 < width < DAY
    ensures change + z.offset(change - 1) <= p < change + z.offset(change)
    ensures Resolve(p, z) + z.offset(Resolve(p, z)) == p + width
    ensures Resolve(p, z) == p - z.offset(change - 1) >= change
    ensures p - DAY < change <= p + DAY
    ensures Resolve(p, z) == p - z.offset(p - DAY) && z.offset(change - 1) == z.offset(p - DAY)
  {
    var before, after := z.offset(p - DAY), z.offset(p + DAY);
    if before == after {
      assert Window(p - DAY, p - before, p + DAY);
      assert false;
    }
    change := OneJump(p - DAY, p + DAY, z);
    width := after - before;
  }

  // Readings at least a day apart: whatever the clock does in between, the later one resolves to the later instant.
  lemma LaterReadingIsLater(p: int, s: int, z: Zone)
    requires Lawful(z) && s + z.offset(s) + DAY <= p
    ensures s < Resolve(p, z)
  {
    var r := Resolve(p, z);
    if r <= s {
      SmallDifference(r, s, z);
      if r + z.offset(r) != p { var _, _ := ResolveInGap(p, z); }
      assert false;
    }
  }

  lemma MuchEarlierReadingIsEarlier(p: int, s: int, z: Zone)
    requires Lawful(z) && p + 2 * DAY <= s + z.offset(s)
    ensures Resolve(p, z) < s
  {}

  lemma ResolveAscends(p: int, q: int, z: Zone)
    requires Lawful(z) && p + DAY <= q
    ensures Resolve(p, z) < Resolve(q, z)
  {
    var r := Resolve(p, z);
    if r + z.offset(r) == p {
      LaterReadingIsLater(q, r, z);
    } else {
      var change, width := ResolveInGap(p, z);
      var later := Resolve(q, z);
      if later <= r {
        if later + z.offset(later) != q { var _, _ := ResolveInGap(q, z); }
        assert Window(p - DAY, later, r);
        assert false;
      }
    }
  }

  // localToInstant returns the first instant that reads as the given local time, when there is one.
  lemma LocalToInstantIsLeast(l: LocalDateTime, z: Zone, t: int)
    requires Lawful(z) && Usable(l) && InstantToLocal(t, z) == l
    ensures InstantToLocal(LocalToInstant(l, z), z) == l
    ensures LocalToInstant(l, z) <= t
  {
    hide InstantToLocal, LocalAsUtc, LocalToInstant;
    var p := LocalAsUtc(l);
    ResolvesInSeconds(l, z);
    ReadsAs(t, l, z);
    ResolveIsLeast(p, Second(t), z);
    ReadsAs(1000 * Resolve(p, z), l, z);
  }

  // When no instant reads as it, the local time lies in a jump of the clock, and the result reads exactly the
  // jump's width later.
  lemma LocalToInstantInGap(l: LocalDateTime, z: Zone) returns (change: int, width: int)
    requires Lawful(z) && Usable(l)
    requires forall t :: InstantToLocal(t, z) != l
    ensures z.offset(change) - z.offset(change - 1) == width > 0
    ensures change + z.offset(change - 1) <= LocalAsUtc(l) < change + z.offset(change)
    ensures InstantToLocal(LocalToInstant(l, z), z) == FromLocalSeconds(LocalAsUtc(l) + width)
  {
    hide FromLocalSeconds, LocalAsUtc, LocalToInstant;
    var p := LocalAsUtc(l);
    ResolvesInSeconds(l, z);
    ReadsAs(1000 * Resolve(p, z), l, z);
    assert InstantToLocal(1000 * Resolve(p, z), z) != l;
    change, width := ResolveInGap(p, z);
  }
}
