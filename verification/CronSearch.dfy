/** Cron fields and the search for the next matching minute, in a zone with a fixed offset. */
module CronSearch {
  import opened Options
  import opened Calendar

  const MS_PER_MINUTE: int := 60_000
  const MS_PER_DAY: int := 86_400_000
  const CRON_SEARCH_DAYS: int := 28 * 366

  datatype Cron = Cron(minute: set<int>, hour: set<int>, dayOfMonth: set<int>, month: set<int>,
                       dayOfWeek: set<int>, dayOfMonthWildcard: bool, dayOfWeekWildcard: bool)

  predicate Field(s: set<int>, lo: int, hi: int) { s != {} && forall x :: x in s ==> lo <= x <= hi }

  predicate Everything(s: set<int>, lo: int, hi: int) { forall x :: lo <= x <= hi ==> x in s }

  /** What parsing a cron expression guarantees. */
  ghost predicate ValidCron(c: Cron) {
    && Field(c.minute, 0, 59) && Field(c.hour, 0, 23) && Field(c.dayOfMonth, 1, 31)
    && Field(c.month, 1, 12) && Field(c.dayOfWeek, 0, 6)
    && (c.dayOfMonthWildcard ==> Everything(c.dayOfMonth, 1, 31))
    && (c.dayOfWeekWildcard ==> Everything(c.dayOfWeek, 0, 6))
  }

  // ---------- parsing one field ----------

  /** What `Number` makes of a piece of the field. */
  datatype Numeral = Whole(value: int) | NotWhole

  datatype Span = Star | From(start: Numeral) | Range(start: Numeral, end: Numeral)

  datatype Part = Part(span: Span, step: Option<Numeral>)

  predicate ValidPart(p: Part, lo: int, hi: int, alias: bool) {
    && (p.step.Some? ==> p.step.value.Whole? && p.step.value.value >= 1)
    && (p.span.From? ==> p.span.start.Whole?)
    && (p.span.Range? ==> p.span.start.Whole? && p.span.end.Whole?)
    && lo <= First(p, lo, alias) <= Last(p, hi, alias) <= hi
  }

  function Sunday(value: int, alias: bool): int { if alias && value == 7 then 0 else value }

  function First(p: Part, lo: int, alias: bool): int {
    if p.span.Star? then Sunday(lo, alias) else if p.span.start.Whole? then Sunday(p.span.start.value, alias) else lo
  }

  function Last(p: Part, hi: int, alias: bool): int {
    match p.span
    case Star => Sunday(hi, alias)
    case From(a) => if a.Whole? then Sunday(a.value, alias) else hi
    case Range(_, b) => if b.Whole? then Sunday(b.value, alias) else hi
  }

  function Step(p: Part): (r: int)
    requires p.step.Some? ==> p.step.value.Whole? && p.step.value.value >= 1
    ensures r >= 1
  {
    if p.step.Some? then p.step.value.value else 1
  }

  ghost predicate Listed(p: Part, lo: int, hi: int, alias: bool, x: int)
    requires ValidPart(p, lo, hi, alias)
  {
    && First(p, lo, alias) <= x <= Last(p, hi, alias)
    && OnGrid(x, First(p, lo, alias), Step(p))
  }

  predicate OnGrid(x: int, first: int, step: int)
    requires step >= 1
  {
    (x - first) % step == 0
  }

  lemma NextOnGrid(x: int, first: int, step: int)
    requires step >= 1 && OnGrid(x, first, step)
    ensures OnGrid(x + step, first, step)
    ensures forall y :: x < y < x + step ==> !OnGrid(y, first, step)
  {
    var q := (x - first) / step;
    DivisionUnique(x + step - first, step, q + 1, 0);
    forall y | x < y < x + step ensures !OnGrid(y, first, step) {
      DivisionUnique(y - first, step, q, y - x);
    }
  }

  method ParsePart(p: Part, lo: int, hi: int, alias: bool, known: set<int>) returns (r: Result<set<int>, string>)
    ensures r.Ok? <==> ValidPart(p, lo, hi, alias)
    ensures r.Ok? ==> forall x :: x in r.value <==> x in known || Listed(p, lo, hi, alias, x)
  {
    var step := match p.step case None => Whole(1) case Some(s) => s;
    if !step.Whole? || step.value < 1 { return Err("Cron step is invalid."); }
    var start := match p.span case Star => Whole(lo) case From(a) => a case Range(a, _) => a;
    var end := match p.span case Star => Whole(hi) case From(a) => a case Range(_, b) => b;
    if !start.Whole? || !end.Whole? { return Err("Cron field is invalid."); }
    var first := if alias && start.value == 7 then 0 else start.value;
    var last := if alias && end.value == 7 then 0 else end.value;
    if first < lo || last > hi || first > last { return Err("Cron field is invalid."); }
    var items := known;
    var item := first;
    assert OnGrid(first, first, step.value);
    while item <= last
      invariant first <= item && OnGrid(item, first, step.value)
      invariant forall x :: x in items <==>
        x in known || (first <= x <= last && x < item && OnGrid(x, first, step.value))
    {
      NextOnGrid(item, first, step.value);
      items := items + {item};
      item := item + step.value;
    }
    return Ok(items);
  }

  predicate ValidParts(parts: seq<Part>, lo: int, hi: int, alias: bool) {
    parts != [] && forall p :: p in parts ==> ValidPart(p, lo, hi, alias)
  }

  /** The numbers a list of parts selects. */
  ghost predicate Selected(parts: seq<Part>, lo: int, hi: int, alias: bool, x: int)
    requires forall p :: p in parts ==> ValidPart(p, lo, hi, alias)
  {
    exists p :: p in parts && Listed(p, lo, hi, alias, x)
  }

  /** Exactly the fields whose every part is valid are accepted, and they list exactly the numbers
      some part selects. */
  method ParseCronField(parts: seq<Part>, lo: int, hi: int, alias: bool) returns (r: Result<set<int>, string>)
    ensures r.Ok? <==> ValidParts(parts, lo, hi, alias)
    ensures r.Ok? ==> Field(r.value, lo, hi)
    ensures r.Ok? ==> forall x :: x in r.value <==> Selected(parts, lo, hi, alias, x)
  {
    var result: set<int> := {};
    for i := 0 to |parts|
      invariant forall p :: p in parts[..i] ==> ValidPart(p, lo, hi, alias)
      invariant forall x :: x in result <==> Selected(parts[..i], lo, hi, alias, x)
      invariant i > 0 <==> result != {}
    {
      assert parts[..i + 1] == parts[..i] + [parts[i]];
      var next := ParsePart(parts[i], lo, hi, alias, result);
      if next.Err? {
        assert parts[i] in parts;
        return next;
      }
      hide ValidPart, Listed;
      result := next.value;
      assert First(parts[i], lo, alias) in result;
    }
    assert parts[..|parts|] == parts;
    if result == {} { return Err("Cron field is empty."); }
    return Ok(result);
  }

  // ---------- Sunday written as 7 ----------

  /** The days `a-b/step` names when 7 is another name for Sunday. */
  ghost predicate Meant(a: int, b: int, step: int, day: int)
    requires step >= 1
  {
    exists x :: a <= x <= b && OnGrid(x, a, step) && day == x % 7
  }

  function DayRange(a: int, b: int, step: int): Part { Part(Range(Whole(a), Whole(b)), Some(Whole(step))) }

  /** The range is accepted and lists the days it means. */
  ghost predicate ReadAsMeant(a: int, b: int, step: int) {
    && ValidPart(DayRange(a, b, step), 0, 6, true)
    && forall x :: 0 <= x <= 6 ==> (Listed(DayRange(a, b, step), 0, 6, true, x) <==> Meant(a, b, step, x))
  }

  lemma WithinWeek(a: int, b: int, step: int)
    requires 0 <= a <= b <= 6 && step >= 1
    ensures ReadAsMeant(a, b, step)
  {
    forall x | 0 <= x <= 6 ensures Listed(DayRange(a, b, step), 0, 6, true, x) <==> Meant(a, b, step, x) {
      if Listed(DayRange(a, b, step), 0, 6, true, x) { assert OnGrid(x, a, step) && x == x % 7; }
    }
  }

  lemma OnlySunday(step: int)
    requires step >= 1
    ensures ReadAsMeant(7, 7, step) && (step >= 7 ==> ReadAsMeant(0, 7, step))
  {
    forall x | 0 <= x <= 6 ensures Listed(DayRange(7, 7, step), 0, 6, true, x) <==> Meant(7, 7, step, x) {
      if x == 0 { assert OnGrid(7, 7, step) && 0 == 7 % 7; }
    }
    if step >= 7 {
      forall x | 0 <= x <= 6 ensures Listed(DayRange(0, 7, step), 0, 6, true, x) <==> Meant(0, 7, step, x) {
        if x == 0 { assert OnGrid(0, 0, step) && 0 == 0 % 7; }
      }
    }
  }

  lemma SundayCutsRange(a: int, step: int)
    requires 0 <= a <= 6 && 1 <= step && (a == 0 ==> step < 7)
    ensures !ReadAsMeant(a, 7, step)
  {
    if a == 0 {
      NextOnGrid(0, 0, step);
      assert OnGrid(step, 0, step) && step == step % 7;
      assert Meant(0, 7, step, step) && !Listed(DayRange(0, 7, step), 0, 6, true, step);
    }
  }

  /** A day-of-week range `a-b/step` with a <= b is read as meant exactly when 7 does not end it,
      except where that range is only Sunday: `0-7` is read as Sunday alone, and `1-7` is refused. */
  lemma SundayEndsNoRange(a: int, b: int, step: int)
    requires 0 <= a <= b <= 7 && step >= 1
    ensures ReadAsMeant(a, b, step) <==> (b != 7 || a == 7 || (a == 0 && step >= 7))
  {
    hide ReadAsMeant;
    if b != 7 {
      WithinWeek(a, b, step);
    } else if a == 7 || (a == 0 && step >= 7) {
      OnlySunday(step);
    } else {
      SundayCutsRange(a, step);
    }
  }

  // ---------- a whole expression ----------

  ghost predicate ReadAs(parts: seq<Part>, lo: int, hi: int, alias: bool, s: set<int>) {
    && ValidParts(parts, lo, hi, alias)
    && forall x :: x in s <==> Selected(parts, lo, hi, alias, x)
  }

  predicate Wildcard(parts: seq<Part>) { parts == [Part(Star, None)] }

  /** A lone `*` selects the whole field. */
  lemma WildcardSelectsAll(lo: int, hi: int, alias: bool, s: set<int>)
    requires lo <= hi && !(alias && (lo == 7 || hi == 7)) && ReadAs([Part(Star, None)], lo, hi, alias, s)
    ensures Everything(s, lo, hi)
  {
    var p := Part(Star, None);
    forall x | lo <= x <= hi ensures x in s {
      assert p in [p] && Listed(p, lo, hi, alias, x) by { DivisionUnique(x - lo, 1, x - lo, 0); }
    }
  }

  method ParseCron(fields: seq<seq<Part>>) returns (r: Result<Cron, string>)
    ensures r.Ok? <==> (|fields| == 5
      && ValidParts(fields[0], 0, 59, false) && ValidParts(fields[1], 0, 23, false)
      && ValidParts(fields[2], 1, 31, false) && ValidParts(fields[3], 1, 12, false)
      && ValidParts(fields[4], 0, 6, true))
    ensures r.Ok? ==> ParsedAs(fields, r.value)
  {
    hide ValidParts, Selected, Field, Everything;
    if |fields| != 5 { return Err("Cron schedule must contain five fields."); }
    var minute := ParseCronField(fields[0], 0, 59, false);
    if minute.Err? { return Err(minute.error); }
    var hour := ParseCronField(fields[1], 0, 23, false);
    if hour.Err? { return Err(hour.error); }
    var dayOfMonth := ParseCronField(fields[2], 1, 31, false);
    if dayOfMonth.Err? { return Err(dayOfMonth.error); }
    var month := ParseCronField(fields[3], 1, 12, false);
    if month.Err? { return Err(month.error); }
    var dayOfWeek := ParseCronField(fields[4], 0, 6, true);
    if dayOfWeek.Err? { return Err(dayOfWeek.error); }
    if Wildcard(fields[2]) { WildcardSelectsAll(1, 31, false, dayOfMonth.value); }
    if Wildcard(fields[4]) { WildcardSelectsAll(0, 6, true, dayOfWeek.value); }
    return Ok(Cron(minute.value, hour.value, dayOfMonth.value, month.value, dayOfWeek.value,
                   Wildcard(fields[2]), Wildcard(fields[4])));
  }

  /** The expression that five fields are parsed to. */
  ghost predicate ParsedAs(fields: seq<seq<Part>>, c: Cron) {
    && |fields| == 5 && ValidCron(c)
    && ReadAs(fields[0], 0, 59, false, c.minute) && ReadAs(fields[1], 0, 23, false, c.hour)
    && ReadAs(fields[2], 1, 31, false, c.dayOfMonth) && ReadAs(fields[3], 1, 12, false, c.month)
    && ReadAs(fields[4], 0, 6, true, c.dayOfWeek)
    && c.dayOfMonthWildcard == Wildcard(fields[2]) && c.dayOfWeekWildcard == Wildcard(fields[4])
  }

  // ---------- clock time in a fixed-offset zone ----------

  datatype Clock = Clock(date: Date, hour: int, minute: int, second: int)

  predicate ValidClock(c: Clock) {
    ValidDate(c.date) && 0 <= c.hour < 24 && 0 <= c.minute < 60 && 0 <= c.second < 60
  }

  /** The local day a moment falls on, for a zone `zone` seconds ahead of UTC. */
  function LocalDay(t: int, zone: int): int { (t + 1000 * zone) / MS_PER_DAY }

  function LocalTime(t: int, zone: int): int { (t + 1000 * zone) % MS_PER_DAY }

  function ZonedParts(t: int, zone: int): (c: Clock)
    ensures ValidClock(c) && DayNumber(c.date) == LocalDay(t, zone)
  {
    hide DayNumber, ValidDate;
    var ms := LocalTime(t, zone);
    Clock(DateOf(LocalDay(t, zone)), ms / 3_600_000, ms / 60_000 % 60, ms / 1000 % 60)
  }

  function Utc(c: Clock): int
    requires ValidClock(c)
  {
    DayNumber(c.date) * MS_PER_DAY + ((c.hour * 60 + c.minute) * 60 + c.second) * 1000
  }

  lemma JoinTime(hour: int, minute: int, second: int)
    requires 0 <= hour < 24 && 0 <= minute < 60 && 0 <= second < 60
    ensures var ms := ((hour * 60 + minute) * 60 + second) * 1000;
      0 <= ms < MS_PER_DAY && ms % 1000 == 0
      && ms / 3_600_000 == hour && ms / 60_000 % 60 == minute && ms / 1000 % 60 == second
  {
    var ms := ((hour * 60 + minute) * 60 + second) * 1000;
    assert ms / 60_000 == hour * 60 + minute;
  }

  /** Reading a clock time back gives it unchanged. */
  lemma ZonedPartsOfUtc(c: Clock, zone: int)
    requires ValidClock(c)
    ensures ZonedParts(Utc(c) - 1000 * zone, zone) == c
  {
    JoinTime(c.hour, c.minute, c.second);
    assert 1 <= c.date.month <= 12;
    hide DayNumber, ValidDate, DateOf;
    var ms := ((c.hour * 60 + c.minute) * 60 + c.second) * 1000;
    DivisionUnique(DayNumber(c.date) * MS_PER_DAY + ms, MS_PER_DAY, DayNumber(c.date), ms);
    DateUnique(c.date);
  }

  predicate OnSecond(t: int) { t % 1000 == 0 }

  lemma WholeSeconds(t: int, zone: int)
    requires OnSecond(t)
    ensures OnSecond(LocalTime(t, zone))
  {
    var k := t / 1000 + zone - 86_400 * LocalDay(t, zone);
    assert LocalTime(t, zone) == 1000 * k;
    DivisionUnique(LocalTime(t, zone), 1000, k, 0);
  }

  lemma SplitTime(ms: int)
    requires 0 <= ms < MS_PER_DAY && OnSecond(ms)
    ensures ((ms / 3_600_000 * 60 + ms / 60_000 % 60) * 60 + ms / 1000 % 60) * 1000 == ms
  {
    var s := ms / 1000;
    var m := s / 60;
    DivisionUnique(ms, 60_000, m, s % 60 * 1000);
    DivisionUnique(ms, 3_600_000, m / 60, m % 60 * 60_000 + s % 60 * 1000);
  }

  lemma DayAndTime(t: int, zone: int)
    ensures LocalDay(t, zone) * MS_PER_DAY + LocalTime(t, zone) == t + 1000 * zone
    ensures 0 <= LocalTime(t, zone) < MS_PER_DAY
  {
  }

  /** A whole second is the UTC time of its clock reading. */
  lemma UtcOfZonedParts(t: int, zone: int)
    requires OnSecond(t)
    ensures Utc(ZonedParts(t, zone)) == t + 1000 * zone
  {
    hide DayNumber, ValidDate, DateOf, LocalTime, LocalDay, OnSecond;
    WholeSeconds(t, zone);
    DayAndTime(t, zone);
    SplitTime(LocalTime(t, zone));
  }

  /** Guess, read the clock at the guess, and correct by the difference; twice. */
  method ZonedDateToUtc(target: Clock, zone: int) returns (guess: int)
    requires ValidClock(target)
    ensures guess == Utc(target) - 1000 * zone
  {
    hide DayNumber, ValidDate, DateOf, Utc, ZonedParts, OnSecond, LocalDay;
    guess := Utc(target);
    WholeSecond(target);
    ShiftedSecond(Utc(target), zone);
    for attempt := 0 to 2
      invariant guess == if attempt == 0 then Utc(target) else Utc(target) - 1000 * zone
      invariant OnSecond(guess)
    {
      var actual := ZonedParts(guess, zone);
      UtcOfZonedParts(guess, zone);
      guess := guess + Utc(target) - Utc(actual);
    }
  }

  lemma WholeSecond(c: Clock)
    requires ValidClock(c)
    ensures OnSecond(Utc(c))
  {
    hide DayNumber, MonthLength;
    DivisionUnique(Utc(c), 1000, DayNumber(c.date) * 86_400 + (c.hour * 60 + c.minute) * 60 + c.second, 0);
  }

  lemma ShiftedSecond(t: int, zone: int)
    requires OnSecond(t)
    ensures OnSecond(t - 1000 * zone)
  {
    DivisionUnique(t - 1000 * zone, 1000, t / 1000 - zone, 0);
  }

  function AddCalendarDays(date: Date, days: int): (r: Date)
    requires ValidDate(date)
    ensures ValidDate(r) && DayNumber(r) == DayNumber(date) + days
  {
    hide MonthLength, DaysBeforeMonth, DayFromYear;
    DateOf(DayNumber(Date(date.year, date.month, date.day + days)))
  }

  // ---------- the search ----------

  predicate DayMatches(c: Cron, date: Date)
    requires ValidDate(date)
  {
    var dom := date.day in c.dayOfMonth;
    var dow := Weekday(DayNumber(date)) in c.dayOfWeek;
    date.month in c.month && if c.dayOfMonthWildcard || c.dayOfWeekWildcard then dom && dow else dom || dow
  }

  /** The days an expression names: those of a listed month that a restricted day of the month or a restricted day of
      the week selects, either of them being enough, and all of the month when both are `*`. */
  lemma NamedDays(fields: seq<seq<Part>>, c: Cron, date: Date)
    requires ParsedAs(fields, c) && ValidDate(date)
    ensures DayMatches(c, date) <==>
      && Selected(fields[3], 1, 12, false, date.month)
      && (|| (!Wildcard(fields[2]) && Selected(fields[2], 1, 31, false, date.day))
          || (!Wildcard(fields[4]) && Selected(fields[4], 0, 6, true, Weekday(DayNumber(date))))
          || (Wildcard(fields[2]) && Wildcard(fields[4])))
  {
    hide Selected, ValidParts, DayNumber, ValidCron;
    DayInMonth(date);
    WildcardIsAll(c);
  }

  lemma DayInMonth(date: Date)
    requires ValidDate(date)
    ensures 1 <= date.day <= 31 && 0 <= Weekday(DayNumber(date)) <= 6
  {
    hide DayNumber;
  }

  lemma WildcardIsAll(c: Cron)
    requires ValidCron(c)
    ensures c.dayOfMonthWildcard ==> forall x :: 1 <= x <= 31 ==> x in c.dayOfMonth
    ensures c.dayOfWeekWildcard ==> forall x :: 0 <= x <= 6 ==> x in c.dayOfWeek
  {
  }

  /** The moments a cron expression names: whole local minutes whose fields are all listed. */
  predicate Matches(c: Cron, zone: int, t: int) {
    var clock := ZonedParts(t, zone);
    && (t + 1000 * zone) % MS_PER_MINUTE == 0
    && DayMatches(c, clock.date) && clock.hour in c.hour && clock.minute in c.minute
  }

  function At(date: Date, hour: int, minute: int, zone: int): int
    requires ValidDate(date) && 0 <= hour < 24 && 0 <= minute < 60
  {
    Utc(Clock(date, hour, minute, 0)) - 1000 * zone
  }

  lemma AtParts(date: Date, hour: int, minute: int, zone: int)
    requires ValidDate(date) && 0 <= hour < 24 && 0 <= minute < 60
    ensures ZonedParts(At(date, hour, minute, zone), zone) == Clock(date, hour, minute, 0)
    ensures (At(date, hour, minute, zone) + 1000 * zone) % MS_PER_MINUTE == 0
  {
    hide DayNumber, ValidDate, ZonedParts;
    ZonedPartsOfUtc(Clock(date, hour, minute, 0), zone);
  }

  /** The moments an expression names: the selected minutes of the selected hours of the days it names. */
  lemma NamedMoments(fields: seq<seq<Part>>, c: Cron, zone: int, date: Date, hour: int, minute: int)
    requires ParsedAs(fields, c) && ValidDate(date) && 0 <= hour < 24 && 0 <= minute < 60
    ensures Matches(c, zone, At(date, hour, minute, zone)) <==>
      DayMatches(c, date) && Selected(fields[1], 0, 23, false, hour) && Selected(fields[0], 0, 59, false, minute)
  {
    hide Selected, ValidParts, ValidCron, DayMatches, ZonedParts, At, DayNumber, ValidDate;
    AtParts(date, hour, minute, zone);
  }

  lemma WholeMinute(t: int, zone: int)
    requires (t + 1000 * zone) % MS_PER_MINUTE == 0
    ensures OnSecond(t) && ZonedParts(t, zone).second == 0
  {
    hide DayNumber, ValidDate, DateOf;
    var m := (t + 1000 * zone) / MS_PER_MINUTE;
    DivisionUnique(t, 1000, m * 60 - zone, 0);
    var k := m - 1440 * LocalDay(t, zone);
    assert LocalTime(t, zone) == 60_000 * k;
    DivisionUnique(LocalTime(t, zone), 1000, 60 * k, 0);
    DivisionUnique(60 * k, 60, k, 0);
  }

  /** A whole local minute is the moment of its clock reading. */
  lemma PartsAt(t: int, zone: int)
    requires (t + 1000 * zone) % MS_PER_MINUTE == 0
    ensures var clock := ZonedParts(t, zone);
      t == At(clock.date, clock.hour, clock.minute, zone)
  {
    hide DayNumber, ValidDate, DateOf, ZonedParts, OnSecond;
    WholeMinute(t, zone);
    UtcOfZonedParts(t, zone);
  }

  predicate Increasing(q: seq<int>) { forall i, j :: 0 <= i < j < |q| ==> q[i] < q[j] }

  lemma Member<T>(s: set<T>) returns (m: T)
    requires s != {}
    ensures m in s
  {
    m :| m in s;
  }

  lemma LeastMember(s: set<int>) returns (m: int)
    requires s != {}
    ensures m in s && forall x :: x in s ==> m <= x
    decreases s
  {
    var first := Member(s);
    m := first;
    var others := s - {first};
    if others != {} {
      var least := LeastMember(others);
      if least < m { m := least; }
    }
    assert forall x :: x in s ==> x == first || x in others;
  }

  method Ascending(s: set<int>) returns (q: seq<int>)
    ensures Increasing(q) && forall x :: x in q <==> x in s
  {
    q := [];
    var rest := s;
    while rest != {}
      invariant Increasing(q)
      invariant forall x :: x in s <==> x in q || x in rest
      invariant forall i, y :: 0 <= i < |q| && y in rest ==> q[i] < y
    {
      ghost var least := LeastMember(rest);
      var m :| m in rest && forall x :: x in rest ==> m <= x;
      q := q + [m];
      rest := rest - {m};
    }
  }

  /** The moments of one local day that match, after `from`. */
  ghost predicate Due(c: Cron, zone: int, from: int, date: Date, t: int) {
    t > from && Matches(c, zone, t) && ZonedParts(t, zone).date == date
  }

  lemma DueAt(c: Cron, zone: int, from: int, date: Date, t: int) returns (hour: int, minute: int)
    requires ValidDate(date) && Due(c, zone, from, date, t)
    ensures hour in c.hour && minute in c.minute && t > from
    ensures 0 <= hour < 24 && 0 <= minute < 60 && t == At(date, hour, minute, zone)
  {
    hide DayNumber, ValidDate, ZonedParts, At, DayMatches;
    PartsAt(t, zone);
    var clock := ZonedParts(t, zone);
    hour, minute := clock.hour, clock.minute;
  }

  lemma AtOrder(date: Date, h: int, m: int, k: int, n: int, zone: int)
    requires ValidDate(date) && 0 <= h < 24 && 0 <= m < 60 && 0 <= k < 24 && 0 <= n < 60
    requires h < k || (h == k && m <= n)
    ensures At(date, h, m, zone) <= At(date, k, n, zone)
  {
  }

  /** The listed hours, or minutes, in order. */
  ghost predicate Lists(q: seq<int>, s: set<int>, bound: int) {
    && Increasing(q) && (forall x :: x in s <==> x in q)
    && forall i :: 0 <= i < |q| ==> 0 <= q[i] < bound
  }

  /** Every time of the day before position (i, j) is past. */
  ghost predicate PastBefore(hours: seq<int>, minutes: seq<int>, date: Date, zone: int, from: int, i: int, j: int)
    requires ValidDate(date)
    requires forall k :: 0 <= k < |hours| ==> 0 <= hours[k] < 24
    requires forall k :: 0 <= k < |minutes| ==> 0 <= minutes[k] < 60
  {
    forall k, n :: 0 <= k < |hours| && 0 <= n < |minutes| && (k < i || (k == i && n < j)) ==>
      At(date, hours[k], minutes[n], zone) <= from
  }

  /** The first time of a matching day that is still ahead. */
  method SearchDay(c: Cron, zone: int, from: int, date: Date, hours: seq<int>, minutes: seq<int>)
    returns (r: Option<int>)
    requires ValidDate(date) && DayMatches(c, date) && Lists(hours, c.hour, 24) && Lists(minutes, c.minute, 60)
    ensures r.Some? ==> Due(c, zone, from, date, r.value)
    ensures forall t :: Due(c, zone, from, date, t) ==> r.Some? && r.value <= t
  {
    hide DayNumber, ValidDate, ZonedParts, At, DayMatches, Utc;
    for i := 0 to |hours|
      invariant PastBefore(hours, minutes, date, zone, from, i, 0)
    {
      for j := 0 to |minutes|
        invariant PastBefore(hours, minutes, date, zone, from, i, j)
      {
        var hour, minute := hours[i], minutes[j];
        var candidate := ZonedDateToUtc(Clock(date, hour, minute, 0), zone);
        var actual := ZonedParts(candidate, zone);
        CandidateIs(date, hour, minute, zone, candidate);
        if candidate > from && actual.date == date && actual.hour == hour && actual.minute == minute {
          forall t | Due(c, zone, from, date, t) ensures candidate <= t {
            DueLater(c, zone, from, date, hours, minutes, i, j, t);
          }
          return Some(candidate);
        }
      }
    }
    forall t ensures !Due(c, zone, from, date, t) {
      if Due(c, zone, from, date, t) {
        var k, n := DuePosition(c, zone, from, date, hours, minutes, t);
      }
    }
    return None;
  }

  lemma CandidateIs(date: Date, hour: int, minute: int, zone: int, candidate: int)
    requires ValidDate(date) && 0 <= hour < 24 && 0 <= minute < 60
    requires candidate == Utc(Clock(date, hour, minute, 0)) - 1000 * zone
    ensures candidate == At(date, hour, minute, zone)
    ensures ZonedParts(candidate, zone) == Clock(date, hour, minute, 0)
    ensures (candidate + 1000 * zone) % MS_PER_MINUTE == 0
  {
    AtParts(date, hour, minute, zone);
  }

  lemma DuePosition(c: Cron, zone: int, from: int, date: Date, hours: seq<int>, minutes: seq<int>, t: int)
    returns (k: int, n: int)
    requires ValidDate(date) && Lists(hours, c.hour, 24) && Lists(minutes, c.minute, 60)
    requires Due(c, zone, from, date, t)
    ensures 0 <= k < |hours| && 0 <= n < |minutes| && t > from && t == At(date, hours[k], minutes[n], zone)
  {
    hide DayNumber, ValidDate, ZonedParts, At, Due;
    var hour, minute := DueAt(c, zone, from, date, t);
    k :| 0 <= k < |hours| && hours[k] == hour;
    n :| 0 <= n < |minutes| && minutes[n] == minute;
  }

  lemma DueLater(c: Cron, zone: int, from: int, date: Date, hours: seq<int>, minutes: seq<int>, i: int, j: int, t: int)
    requires ValidDate(date) && Lists(hours, c.hour, 24) && Lists(minutes, c.minute, 60)
    requires Due(c, zone, from, date, t) && 0 <= i < |hours| && 0 <= j < |minutes|
    requires PastBefore(hours, minutes, date, zone, from, i, j)
    ensures At(date, hours[i], minutes[j], zone) <= t
  {
    hide DayNumber, ValidDate, ZonedParts, At, Due;
    var k, n := DuePosition(c, zone, from, date, hours, minutes, t);
    assert !(k < i || (k == i && n < j));
    AtOrder(date, hours[i], minutes[j], hours[k], minutes[n], zone);
  }

  // ---------- how far ahead a matching day can be ----------

  function LongestMonth(m: int): int { if m == 2 then 29 else if m == 4 || m == 6 || m == 9 || m == 11 then 30 else 31 }

  /** The day of the week is left open and no listed month ever has a listed day. */
  ghost predicate NoSuchDay(c: Cron) {
    c.dayOfWeekWildcard && forall m, d :: m in c.month && d in c.dayOfMonth ==> d > LongestMonth(m)
  }

  lemma NoSuchDayMatches(c: Cron, date: Date)
    requires NoSuchDay(c) && ValidDate(date)
    ensures !DayMatches(c, date)
  {
  }

  /** Some day after `n`, and within the horizon, matches. */
  lemma MatchingDayAhead(c: Cron, n: int) returns (date: Date)
    requires ValidCron(c) && !NoSuchDay(c)
    ensures ValidDate(date) && DayMatches(c, date) && 1 <= DayNumber(date) - n <= CRON_SEARCH_DAYS
  {
    hide DayNumber, Weekday;
    if c.dayOfWeekWildcard {
      var m, d :| m in c.month && d in c.dayOfMonth && d <= LongestMonth(m);
      date := DateAhead(n, m, d);
      WeekdayRange(DayNumber(date));
    } else {
      var m := Member(c.month);
      var w := Member(c.dayOfWeek);
      date := WeekdayAhead(n, m, w);
    }
  }

  lemma WeekdayRange(n: int)
    ensures 0 <= Weekday(n) <= 6
  {
  }

  lemma DateAhead(n: int, m: int, d: int) returns (date: Date)
    requires 1 <= m <= 12 && 1 <= d <= LongestMonth(m)
    ensures ValidDate(date) && date.month == m && date.day == d && 1 <= DayNumber(date) - n <= CRON_SEARCH_DAYS
  {
    hide DayNumber, YearOf;
    if m == 2 && d == 29 {
      var y := LeapDayAhead(n);
      date := Date(y, 2, 29);
    } else {
      NextYearAhead(n, m, d);
      date := Date(YearOf(n) + 1, m, d);
    }
  }

  lemma WeekdayAhead(n: int, m: int, w: int) returns (date: Date)
    requires 1 <= m <= 12 && 0 <= w <= 6
    ensures ValidDate(date) && date.month == m && Weekday(DayNumber(date)) == w
    ensures 1 <= DayNumber(date) - n <= CRON_SEARCH_DAYS
  {
    var y := YearOf(n) + 1;
    var first := DayNumber(Date(y, m, 1));
    var k := WeekdayInWeek(first, w);
    date := Date(y, m, 1 + k);
    hide DayNumber, YearOf, Weekday;
    NextYearAhead(n, m, 1 + k);
  }

  /** No time is ever named exactly by the expressions whose day never comes. */
  lemma NeverMatches(c: Cron, zone: int)
    requires ValidCron(c)
    ensures NoSuchDay(c) <==> forall t :: !Matches(c, zone, t)
  {
    hide DayMatches, NoSuchDay;
    if NoSuchDay(c) {
      forall t ensures !Matches(c, zone, t) {
        NoSuchDayMatches(c, ZonedParts(t, zone).date);
      }
    } else {
      var date := MatchingDayAhead(c, 0);
      var t := TimeOn(c, zone, date);
    }
  }

  lemma TimeOn(c: Cron, zone: int, date: Date) returns (t: int)
    requires ValidCron(c) && ValidDate(date) && DayMatches(c, date)
    ensures Matches(c, zone, t) && ZonedParts(t, zone).date == date
  {
    hide DayMatches, DayNumber, ZonedParts, At, ValidDate;
    var hour := Member(c.hour);
    var minute := Member(c.minute);
    t := At(date, hour, minute, zone);
    AtParts(date, hour, minute, zone);
  }

  // ---------- the next run ----------

  /** Nothing that matches after `from` falls before day `n`. */
  ghost predicate NoneBefore(c: Cron, zone: int, from: int, n: int) {
    forall t :: t > from && Matches(c, zone, t) ==> LocalDay(t, zone) >= n
  }

  lemma DaysInOrder(t: int, u: int, zone: int)
    ensures t <= u ==> LocalDay(t, zone) <= LocalDay(u, zone)
  {
  }

  lemma StartOfSearch(c: Cron, zone: int, from: int)
    ensures NoneBefore(c, zone, from, LocalDay(from, zone))
  {
  }

  lemma DayIsDate(t: int, zone: int, date: Date)
    requires ValidDate(date)
    ensures LocalDay(t, zone) == DayNumber(date) <==> ZonedParts(t, zone).date == date
  {
    hide DayNumber, LocalDay, ValidDate, DateOf;
    DateUnique(date);
  }

  /** A day with nothing due on it can be passed over. */
  lemma PassDay(c: Cron, zone: int, from: int, date: Date)
    requires ValidDate(date) && NoneBefore(c, zone, from, DayNumber(date))
    requires forall t :: !Due(c, zone, from, date, t)
    ensures NoneBefore(c, zone, from, DayNumber(date) + 1)
  {
    hide DayNumber, LocalDay, Matches, ZonedParts, MonthLength;
    forall t | t > from && Matches(c, zone, t) ensures LocalDay(t, zone) >= DayNumber(date) + 1 {
      assert !Due(c, zone, from, date, t);
      DayIsDate(t, zone, date);
    }
  }

  lemma NotThatDay(c: Cron, zone: int, from: int, date: Date)
    requires ValidDate(date) && !DayMatches(c, date)
    ensures forall t :: !Due(c, zone, from, date, t)
  {
  }

  lemma FirstOfAll(c: Cron, zone: int, from: int, date: Date, found: int)
    requires ValidDate(date) && NoneBefore(c, zone, from, DayNumber(date))
    requires Due(c, zone, from, date, found)
    requires forall t :: Due(c, zone, from, date, t) ==> found <= t
    ensures forall t :: t > from && Matches(c, zone, t) ==> found <= t
  {
    hide DayNumber, LocalDay, Matches, ZonedParts, MonthLength;
    forall t | t > from && Matches(c, zone, t) ensures found <= t {
      DayIsDate(t, zone, date);
      DayIsDate(found, zone, date);
      if ZonedParts(t, zone).date == date {
        assert Due(c, zone, from, date, t);
      } else {
        DaysInOrder(t, found, zone);
      }
    }
  }

  /** The horizon is far enough: an expression with nothing due within it has nothing due at all. */
  lemma HorizonSuffices(c: Cron, zone: int, from: int)
    requires ValidCron(c) && NoneBefore(c, zone, from, LocalDay(from, zone) + CRON_SEARCH_DAYS + 1)
    ensures NoSuchDay(c)
  {
    hide DayNumber, LocalDay, Matches, ZonedParts, MonthLength, DayMatches, NoSuchDay;
    if !NoSuchDay(c) {
      var date := MatchingDayAhead(c, LocalDay(from, zone));
      var t := TimeOn(c, zone, date);
      DayIsDate(t, zone, date);
      DaysInOrder(t, from, zone);
    }
  }

  lemma ListsHours(c: Cron, hours: seq<int>, minutes: seq<int>)
    requires ValidCron(c) && Increasing(hours) && Increasing(minutes)
    requires forall x :: x in hours <==> x in c.hour
    requires forall x :: x in minutes <==> x in c.minute
    ensures Lists(hours, c.hour, 24) && Lists(minutes, c.minute, 60)
  {
    assert forall i :: 0 <= i < |hours| ==> hours[i] in hours;
    assert forall i :: 0 <= i < |minutes| ==> minutes[i] in minutes;
  }

  /** The earliest matching minute strictly after `from`; none exactly when no minute ever matches. */
  method NextCron(c: Cron, zone: int, from: int) returns (r: Option<int>)
    requires ValidCron(c)
    ensures r.Some? ==> r.value > from && Matches(c, zone, r.value)
    ensures r.Some? ==> forall t :: t > from && Matches(c, zone, t) ==> r.value <= t
    ensures r.None? <==> NoSuchDay(c)
    ensures r.None? <==> forall t :: !Matches(c, zone, t)
  {
    var today := ZonedParts(from, zone).date;
    var hours := Ascending(c.hour);
    var minutes := Ascending(c.minute);
    ListsHours(c, hours, minutes);
    hide DayNumber, LocalDay, Matches, ZonedParts, MonthLength, NoSuchDay, NoneBefore, Lists, Increasing;
    StartOfSearch(c, zone, from);
    NeverMatches(c, zone);
    for offset := 0 to CRON_SEARCH_DAYS + 1
      invariant NoneBefore(c, zone, from, LocalDay(from, zone) + offset)
    {
      var date := AddCalendarDays(today, offset);
      var domMatches := date.day in c.dayOfMonth;
      var dowMatches := Weekday(DayNumber(date)) in c.dayOfWeek;
      var dayMatches :=
        if c.dayOfMonthWildcard || c.dayOfWeekWildcard then domMatches && dowMatches else domMatches || dowMatches;
      if date.month in c.month && dayMatches {
        var found := SearchDay(c, zone, from, date, hours, minutes);
        if found.Some? {
          FirstOfAll(c, zone, from, date, found.value);
          return found;
        }
      } else {
        NotThatDay(c, zone, from, date);
      }
      PassDay(c, zone, from, date);
    }
    HorizonSuffices(c, zone, from);
    return None;
  }

  // ---------- daily and weekly schedules ----------

  function UpTo(lo: int, hi: int): (s: set<int>)
    ensures forall x :: x in s <==> lo <= x <= hi
    decreases hi - lo
  {
    if hi < lo then {} else UpTo(lo, hi - 1) + {hi}
  }

  /** A weekly schedule as a cron expression: `minute hour * * days`. */
  function WeeklyAsCron(days: set<int>, hour: int, minute: int): Cron {
    Cron({minute}, {hour}, UpTo(1, 31), UpTo(1, 12), days, true, false)
  }

  lemma WeeklyDayMatches(days: set<int>, hour: int, minute: int, date: Date)
    requires ValidDate(date)
    ensures DayMatches(WeeklyAsCron(days, hour, minute), date) <==> Weekday(DayNumber(date)) in days
  {
    hide DayNumber, UpTo;
  }

  /** On a matching day the schedule names one moment. */
  lemma OnceADay(days: set<int>, hour: int, minute: int, zone: int, from: int, date: Date, candidate: int)
    requires ValidDate(date) && Weekday(DayNumber(date)) in days && 0 <= hour < 24 && 0 <= minute < 60
    requires candidate == Utc(Clock(date, hour, minute, 0)) - 1000 * zone
    ensures forall t ::
      Due(WeeklyAsCron(days, hour, minute), zone, from, date, t) <==> t == candidate && candidate > from
  {
    hide DayNumber, ValidDate, ZonedParts, At, DayMatches, UpTo, Weekday, Utc;
    var c := WeeklyAsCron(days, hour, minute);
    CandidateIs(date, hour, minute, zone, candidate);
    WeeklyDayMatches(days, hour, minute, date);
    forall t ensures Due(c, zone, from, date, t) <==> t == candidate && candidate > from {
      if Due(c, zone, from, date, t) {
        var h, m := DueAt(c, zone, from, date, t);
      }
    }
  }

  /** Within a week of any day there is each day of the week. */
  lemma WeekAhead(n: int, w: int) returns (date: Date)
    requires 0 <= w <= 6
    ensures ValidDate(date) && 1 <= DayNumber(date) - n <= 7 && Weekday(DayNumber(date)) == w
  {
    var k := WeekdayInWeek(n + 1, w);
    hide DayNumber, Weekday;
    date := DateOf(n + 1 + k);
  }

  lemma WeekSuffices(days: set<int>, hour: int, minute: int, zone: int, from: int, w: int)
    requires 0 <= hour < 24 && 0 <= minute < 60 && w in days && 0 <= w <= 6
    ensures !NoneBefore(WeeklyAsCron(days, hour, minute), zone, from, LocalDay(from, zone) + 8)
  {
    var c := WeeklyAsCron(days, hour, minute);
    var date := WeekAhead(LocalDay(from, zone), w);
    hide DayNumber, LocalDay, MonthLength, Due, ZonedParts, Utc, Weekday;
    var t := Utc(Clock(date, hour, minute, 0)) - 1000 * zone;
    OnceADay(days, hour, minute, zone, t - 1, date, t);
    DueParts(c, zone, t - 1, date, t);
    DayIsDate(t, zone, date);
    DaysInOrder(t, from, zone);
  }

  lemma DueParts(c: Cron, zone: int, from: int, date: Date, t: int)
    requires Due(c, zone, from, date, t)
    ensures Matches(c, zone, t) && ZonedParts(t, zone).date == date
  {
  }

  /** The next run of a weekly schedule is the next run of its cron expression; the search fails
      exactly when no day of the week is listed. */
  method NextWeekly(days: set<int>, hour: int, minute: int, zone: int, from: int) returns (r: Result<int, string>)
    requires 0 <= hour < 24 && 0 <= minute < 60
    ensures r.Ok? <==> exists w :: w in days && 0 <= w <= 6
    ensures r.Ok? ==> r.value > from && Matches(WeeklyAsCron(days, hour, minute), zone, r.value)
    ensures r.Ok? ==> forall t :: t > from && Matches(WeeklyAsCron(days, hour, minute), zone, t) ==> r.value <= t
  {
    ghost var c := WeeklyAsCron(days, hour, minute);
    var today := ZonedParts(from, zone).date;
    hide DayNumber, LocalDay, Matches, ZonedParts, MonthLength, NoneBefore, WeeklyAsCron, Utc, Due, DayMatches, Weekday,
      DateOf;
    StartOfSearch(c, zone, from);
    for offset := 0 to 8
      invariant NoneBefore(c, zone, from, LocalDay(from, zone) + offset)
    {
      var date := AddCalendarDays(today, offset);
      WeeklyDayMatches(days, hour, minute, date);
      var weekday := Weekday(DayNumber(date));
      if weekday in days {
        var candidate := ZonedDateToUtc(Clock(date, hour, minute, 0), zone);
        OnceADay(days, hour, minute, zone, from, date, candidate);
        if candidate > from {
          FirstOfAll(c, zone, from, date, candidate);
          DueParts(c, zone, from, date, candidate);
          WeekdayRange(DayNumber(date));
          return Ok(candidate);
        }
      } else {
        NotThatDay(c, zone, from, date);
      }
      PassDay(c, zone, from, date);
    }
    if w :| w in days && 0 <= w <= 6 {
      WeekSuffices(days, hour, minute, zone, from, w);
    }
    return Err("Unable to calculate the next weekly automation run.");
  }

  /** A daily schedule runs at the first moment after `from` of the weekly one that lists every day. */
  method NextDaily(hour: int, minute: int, zone: int, from: int) returns (candidate: int)
    requires 0 <= hour < 24 && 0 <= minute < 60
    ensures candidate > from && Matches(WeeklyAsCron(UpTo(0, 6), hour, minute), zone, candidate)
    ensures forall t :: t > from && Matches(WeeklyAsCron(UpTo(0, 6), hour, minute), zone, t) ==> candidate <= t
  {
    ghost var c := WeeklyAsCron(UpTo(0, 6), hour, minute);
    var today := ZonedParts(from, zone).date;
    hide LocalDay, Matches, ZonedParts, MonthLength, NoneBefore, WeeklyAsCron, Due, DayFromYear, DaysBeforeMonth,
      DayNumber, UpTo, Utc;
    StartOfSearch(c, zone, from);
    WeekdayRange(DayNumber(today));
    candidate := ZonedDateToUtc(Clock(today, hour, minute, 0), zone);
    OnceADay(UpTo(0, 6), hour, minute, zone, from, today, candidate);
    var day := today;
    if candidate <= from {
      PassDay(c, zone, from, today);
      day := AddCalendarDays(today, 1);
      WeekdayRange(DayNumber(day));
      candidate := ZonedDateToUtc(Clock(day, hour, minute, 0), zone);
      OnceADay(UpTo(0, 6), hour, minute, zone, from, day, candidate);
      TomorrowIsAhead(c, zone, from, day, hour, minute, candidate);
    }
    FirstOfAll(c, zone, from, day, candidate);
    DueParts(c, zone, from, day, candidate);
  }

  lemma TomorrowIsAhead(c: Cron, zone: int, from: int, day: Date, hour: int, minute: int, candidate: int)
    requires ValidDate(day) && DayNumber(day) > LocalDay(from, zone) && 0 <= hour < 24 && 0 <= minute < 60
    requires candidate == Utc(Clock(day, hour, minute, 0)) - 1000 * zone
    ensures candidate > from
  {
  }
}
