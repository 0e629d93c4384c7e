/**
 The five-field cron parser and its minute-by-minute search
 (apps/api/src/modules/cron/cron-schedule.util.ts).
 */
module CronSchedule {
  import opened Wrappers
  import opened Text
  import opened Calendar

  // ── parsing ─────────────────────────────────────────────────────────

  /** What one part of a field denotes: lo, lo + step, ... up to hi. */
  datatype Progression = Progression(lo: int, hi: int, step: int)

  ghost predicate Denotes(p: Progression, v: int) {
    p.step > 0 && p.lo <= v <= p.hi && (v - p.lo) % p.step == 0
  }

  function ParseRange(range: string, stepped: bool, min: int, max: int): Option<(int, int)> {
    if range == "*" then Some((min, max))
    else if Digits(range) then Some((Number(range), if stepped then max else Number(range)))
    else match IndexOf(range, '-')
      case None => None
      case Some(i) =>
        if Digits(range[..i]) && Digits(range[i + 1..]) then Some((Number(range[..i]), Number(range[i + 1..])))
        else None
  }

  function ParsePart(part: string, min: int, max: int): (r: Option<Progression>)
    ensures r.Some? ==> min <= r.value.lo <= r.value.hi <= max && r.value.step > 0
  {
    var slash := IndexOf(part, '/');
    var stepText := if slash.Some? then part[slash.value + 1..] else "1";
    if !Digits(stepText) || Number(stepText) == 0 then None
    else
      var range := ParseRange(if slash.Some? then part[..slash.value] else part, slash.Some?, min, max);
      if range.None? || range.value.0 < min || range.value.1 > max || range.value.0 > range.value.1 then None
      else Some(Progression(range.value.0, range.value.1, Number(stepText)))
  }

  ghost predicate FieldOk(token: string, min: int, max: int) {
    PartsOk(Split(token, ','), |Split(token, ',')|, min, max)
  }

  ghost predicate PartsOk(parts: seq<string>, n: nat, min: int, max: int)
    requires n <= |parts|
  {
    forall i :: 0 <= i < n ==> ParsePart(parts[i], min, max).Some?
  }

  ghost predicate InField(token: string, min: int, max: int, v: int) {
    InParts(Split(token, ','), |Split(token, ',')|, min, max, v)
  }

  ghost predicate InParts(parts: seq<string>, n: nat, min: int, max: int, v: int)
    requires n <= |parts|
  {
    exists i :: 0 <= i < n && PartDenotes(parts[i], min, max, v)
  }

  ghost predicate PartDenotes(part: string, min: int, max: int, v: int) {
    ParsePart(part, min, max).Some? && Denotes(ParsePart(part, min, max).value, v)
  }

  /** Exactly the union of the progressions the parts denote; null when a part is malformed. */
  method ParseField(token: string, min: int, max: int) returns (out: Option<set<int>>)
    ensures out.Some? <==> FieldOk(token, min, max)
    ensures out.Some? ==> ReadsAs(out.value, token, min, max)
  {
    var values: set<int> := {};
    var parts := Split(token, ',');
    for i := 0 to |parts|
      invariant PartsOk(parts, i, min, max)
      invariant forall v :: v in values <==> InParts(parts, i, min, max, v)
    {
      var p := ParsePart(parts[i], min, max);
      if p.None? { return None; }
      forall v ensures InParts(parts, i + 1, min, max, v) <==> InParts(parts, i, min, max, v) || Denotes(p.value, v) {
        OnePartMore(parts, i, min, max, v);
      }
      values := AddProgression(values, p.value);
    }
    out := Some(values);
  }

  lemma OnePartMore(parts: seq<string>, i: nat, min: int, max: int, v: int)
    requires i < |parts|
    ensures InParts(parts, i + 1, min, max, v) <==> InParts(parts, i, min, max, v) || PartDenotes(parts[i], min, max, v)
  {
  }

  /** for (let v = lo; v <= hi; v += step) out.add(v) */
  method AddProgression(before: set<int>, p: Progression) returns (values: set<int>)
    requires p.step > 0
    ensures forall v :: v in values <==> v in before || Denotes(p, v)
  {
    values := before;
    var v := p.lo;
    while v <= p.hi
      invariant v >= p.lo && (v - p.lo) % p.step == 0
      invariant forall u :: u in values <==> u in before || (Denotes(p, u) && u < v)
      decreases p.hi - v
    {
      forall u | v < u < v + p.step ensures !Denotes(p, u) {
        RemainderOfSum(v - p.lo, p.step, u - v);
      }
      RemainderOfSum(v - p.lo, p.step, 0);
      NextMultiple(v - p.lo, p.step);
      values := values + {v};
      v := v + p.step;
    }
  }

  lemma MultipleIsFar(d: int, k: int)
    requires k > 0
    ensures d >= 1 ==> d * k >= k
    ensures d <= -1 ==> d * k <= -k
  {
    if d >= 1 { assert (d - 1) * k >= 0; }
    if d <= -1 { assert (-d - 1) * k >= 0; }
  }

  lemma DivisionIsUnique(a: int, k: int, q: int, r: int)
    requires k > 0 && a == q * k + r && 0 <= r < k
    ensures a % k == r
  {
    var q', r' := a / k, a % k;
    assert a == k * q' + r';
    assert (q - q') * k == r' - r;
    MultipleIsFar(q - q', k);
  }

  lemma RemainderOfSum(a: int, k: int, r: int)
    requires k > 0 && a % k == 0 && 0 <= r < k
    ensures (a + r) % k == r
  {
    DivisionIsUnique(a + r, k, a / k, r);
  }

  lemma NextMultiple(a: int, k: int)
    requires k > 0 && a % k == 0
    ensures (a + k) % k == 0
  {
    assert (a / k + 1) * k == a + k;
    DivisionIsUnique(a + k, k, a / k + 1, 0);
  }

  /** FIELD_BOUNDS: minute, hour, day of month, month, day of week (0 and 7 are Sunday). */
  const BOUNDS: seq<(int, int)> := [(0, 59), (0, 23), (1, 31), (1, 12), (0, 7)]

  datatype ParsedCron = ParsedCron(
    minute: set<int>, hour: set<int>, dom: set<int>, month: set<int>, dow: set<int>,
    domRestricted: bool, dowRestricted: bool)

  ghost predicate CronOk(expr: string) {
    var fields := Words(expr);
    |fields| == 5 && forall i :: 0 <= i < 5 ==> FieldOk(fields[i], BOUNDS[i].0, BOUNDS[i].1)
  }

  ghost predicate ReadsAs(values: set<int>, token: string, min: int, max: int) {
    forall v :: v in values <==> InField(token, min, max, v)
  }

  /** The parse of `expr`: each set is what its field denotes, with 7 read as 0. */
  ghost predicate IsParseOf(p: ParsedCron, expr: string) {
    && CronOk(expr)
    && var f := Words(expr);
    && ReadsAs(p.minute, f[0], 0, 59)
    && ReadsAs(p.hour, f[1], 0, 23)
    && ReadsAs(p.dom, f[2], 1, 31)
    && ReadsAs(p.month, f[3], 1, 12)
    && (forall v :: v in p.dow <==> v != 7 && (InField(f[4], 0, 7, v) || (v == 0 && InField(f[4], 0, 7, 7))))
    && (p.domRestricted <==> f[2] != "*")
    && (p.dowRestricted <==> f[4] != "*")
  }

  method ParseCron(expr: string) returns (r: Option<ParsedCron>)
    ensures r.Some? <==> CronOk(expr)
    ensures r.Some? ==> IsParseOf(r.value, expr)
  {
    var fields := Words(expr);
    if |fields| != 5 { return None; }
    var sets: seq<set<int>> := [];
    for i := 0 to 5
      invariant |sets| == i
      invariant forall j :: 0 <= j < i ==> FieldOk(fields[j], BOUNDS[j].0, BOUNDS[j].1) && ReadsAs(sets[j], fields[j], BOUNDS[j].0, BOUNDS[j].1)
    {
      var s := ParseField(fields[i], BOUNDS[i].0, BOUNDS[i].1);
      if s.None? { return None; }
      sets := sets + [s.value];
    }
    var dow := sets[4];
    if 7 in dow {
      dow := dow + {0} - {7};
    }
    assert ReadsAs(sets[4], fields[4], BOUNDS[4].0, BOUNDS[4].1);
    assert ReadsAs(sets[0], fields[0], BOUNDS[0].0, BOUNDS[0].1) && ReadsAs(sets[1], fields[1], BOUNDS[1].0, BOUNDS[1].1);
    assert ReadsAs(sets[2], fields[2], BOUNDS[2].0, BOUNDS[2].1) && ReadsAs(sets[3], fields[3], BOUNDS[3].0, BOUNDS[3].1);
    r := Some(ParsedCron(sets[0], sets[1], sets[2], sets[3], dow, fields[2] != "*", fields[4] != "*"));
  }

  ghost predicate Within(values: set<int>, lo: int, hi: int) {
    (exists v :: v in values) && forall v :: v in values ==> lo <= v <= hi
  }

  /** What every successful parse guarantees. */
  ghost predicate ValidCron(p: ParsedCron) {
    && Within(p.minute, 0, 59) && Within(p.hour, 0, 23) && Within(p.dom, 1, 31)
    && Within(p.month, 1, 12) && Within(p.dow, 0, 6)
  }

  lemma FieldIsWithin(values: set<int>, token: string, min: int, max: int)
    requires FieldOk(token, min, max) && ReadsAs(values, token, min, max)
    ensures Within(values, min, max)
  {
    var parts := Split(token, ',');
    var p := ParsePart(parts[0], min, max).value;
    assert PartDenotes(parts[0], min, max, p.lo);
    assert p.lo in values;
    forall v | v in values ensures min <= v <= max {
      assert InParts(parts, |parts|, min, max, v);
    }
  }

  lemma ParseIsValid(p: ParsedCron, expr: string)
    requires IsParseOf(p, expr)
    ensures ValidCron(p)
  {
    var f := Words(expr);
    FieldIsWithin(p.minute, f[0], BOUNDS[0].0, BOUNDS[0].1);
    FieldIsWithin(p.hour, f[1], BOUNDS[1].0, BOUNDS[1].1);
    FieldIsWithin(p.dom, f[2], BOUNDS[2].0, BOUNDS[2].1);
    FieldIsWithin(p.month, f[3], BOUNDS[3].0, BOUNDS[3].1);
    assert FieldOk(f[4], BOUNDS[4].0, BOUNDS[4].1);
    WeekdaysAreWithin(p.dow, f[4]);
  }

  lemma WeekdaysAreWithin(dow: set<int>, token: string)
    requires FieldOk(token, 0, 7)
    requires forall v :: v in dow <==> v != 7 && (InField(token, 0, 7, v) || (v == 0 && InField(token, 0, 7, 7)))
    ensures Within(dow, 0, 6)
  {
    var parts := Split(token, ',');
    var q := ParsePart(parts[0], 0, 7).value;
    assert PartDenotes(parts[0], 0, 7, q.lo) && InField(token, 0, 7, q.lo);
    forall v | InField(token, 0, 7, v) ensures 0 <= v <= 7 {
      assert InParts(parts, |parts|, 0, 7, v);
    }
    assert (if q.lo == 7 then 0 else q.lo) in dow;
  }

  // ── matching and searching ──────────────────────────────────────────

  predicate DayMatches(p: ParsedCron, day: Day) {
    var domOk, dowOk := CivilDate(day).day in p.dom, DayOfWeek(day) in p.dow;
    if p.domRestricted && p.dowRestricted then domOk || dowOk
    else if p.domRestricted then domOk
    else if p.dowRestricted then dowOk
    else true
  }

  predicate Matches(p: ParsedCron, t: Minutes) {
    && MinuteOf(t) in p.minute
    && HourOf(t) in p.hour
    && CivilDate(DayOf(t)).month in p.month
    && DayMatches(p, DayOf(t))
  }

  const MAX_MINUTES := 370 * 24 * 60

  /** The minute of a time in milliseconds: what setSeconds(0, 0) leaves. */
  function MinuteFloor(nowMs: int): Minutes { nowMs / 60000 }

  /** The greatest matching minute not after `now`, looking back MAX_MINUTES. */
  ghost predicate IsPrevious(p: ParsedCron, now: Minutes, r: Option<Minutes>) {
    match r
    case Some(t) => now - MAX_MINUTES < t <= now && Matches(p, t) && forall u :: t < u <= now ==> !Matches(p, u)
    case None => forall u :: now - MAX_MINUTES < u <= now ==> !Matches(p, u)
  }

  /** The least matching minute after `now`, looking ahead MAX_MINUTES. */
  ghost predicate IsNext(p: ParsedCron, now: Minutes, r: Option<Minutes>) {
    match r
    case Some(t) => now < t <= now + MAX_MINUTES && Matches(p, t) && forall u :: now < u < t ==> !Matches(p, u)
    case None => forall u :: now < u <= now + MAX_MINUTES ==> !Matches(p, u)
  }

  method SearchBack(p: ParsedCron, now: Minutes) returns (r: Option<Minutes>)
    ensures IsPrevious(p, now, r)
  {
    var cursor := now;
    for i := 0 to MAX_MINUTES
      invariant cursor == now - i
      invariant forall u :: cursor < u <= now ==> !Matches(p, u)
    {
      if Matches(p, cursor) { return Some(cursor); }
      cursor := cursor - 1;
    }
    return None;
  }

  method SearchAhead(p: ParsedCron, now: Minutes) returns (r: Option<Minutes>)
    ensures IsNext(p, now, r)
  {
    var cursor := now + 1;
    for i := 0 to MAX_MINUTES
      invariant cursor == now + 1 + i
      invariant forall u :: now < u < cursor ==> !Matches(p, u)
    {
      if Matches(p, cursor) { return Some(cursor); }
      cursor := cursor + 1;
    }
    return None;
  }

  method PreviousOccurrence(schedule: string, nowMs: int) returns (r: Option<Minutes>)
    ensures !CronOk(schedule) ==> r == None
    ensures CronOk(schedule) ==> exists p :: IsParseOf(p, schedule) && IsPrevious(p, MinuteFloor(nowMs), r)
  {
    var parsed := ParseCron(schedule);
    if parsed.None? { return None; }
    r := SearchBack(parsed.value, MinuteFloor(nowMs));
  }

  method NextOccurrence(schedule: string, nowMs: int) returns (r: Option<Minutes>)
    ensures !CronOk(schedule) ==> r == None
    ensures CronOk(schedule) ==> exists p :: IsParseOf(p, schedule) && IsNext(p, MinuteFloor(nowMs), r)
  {
    var parsed := ParseCron(schedule);
    if parsed.None? { return None; }
    r := SearchAhead(parsed.value, MinuteFloor(nowMs));
  }

  lemma ReadingIsUnique(a: set<int>, b: set<int>, token: string, min: int, max: int)
    requires ReadsAs(a, token, min, max) && ReadsAs(b, token, min, max)
    ensures a == b
  {
    forall v ensures v in a <==> v in b {
      assert v in a <==> InField(token, min, max, v);
    }
  }

  /** A schedule has one parse ... */
  lemma ParseIsUnique(schedule: string, p: ParsedCron, q: ParsedCron)
    requires IsParseOf(p, schedule) && IsParseOf(q, schedule)
    ensures p == q
  {
    var f := Words(schedule);
    ReadingIsUnique(p.minute, q.minute, f[0], 0, 59);
    ReadingIsUnique(p.hour, q.hour, f[1], 0, 23);
    ReadingIsUnique(p.dom, q.dom, f[2], 1, 31);
    ReadingIsUnique(p.month, q.month, f[3], 1, 12);
    forall v ensures v in p.dow <==> v in q.dow {}
  }

  /** ... and an instant has one previous occurrence. */
  lemma PreviousIsUnique(p: ParsedCron, now: Minutes, r: Option<Minutes>, s: Option<Minutes>)
    requires IsPrevious(p, now, r) && IsPrevious(p, now, s)
    ensures r == s
  {
  }

  // ── the 370-day look-back ───────────────────────────────────────────

  function ShortestMonth(m: int): int
    requires 1 <= m <= 12
  {
    if m == 2 then 28 else MonthLength(1, m)
  }

  /** Some day of the month field exists in every year, unless the weekday decides. */
  ghost predicate FiresEveryYear(p: ParsedCron) {
    p.dowRestricted || !p.domRestricted || exists m, d :: FixedDay(p, m, d)
  }

  ghost predicate FixedDay(p: ParsedCron, m: int, d: int) {
    1 <= m <= 12 && m in p.month && d in p.dom && 1 <= d <= ShortestMonth(m)
  }

  lemma FixedDateRecurs(m: int, d: int, hour: int, minute: int, now: Minutes) returns (date: Date)
    requires 1 <= m <= 12 && 1 <= d <= ShortestMonth(m) && 0 <= hour <= 23 && 0 <= minute <= 59
    ensures ValidDate(date) && date.month == m && date.day == d
    ensures now - MAX_MINUTES < At(DayNumber(date), hour, minute) <= now
  {
    var y := YearOf(DayOf(now));
    var current, last := Date(y, m, d), Date(y - 1, m, d);
    DateInYear(current);
    DateInYear(last);
    YearEarlier(current);
    YearLength(y);
    FieldsAt(now);
    date := if At(DayNumber(current), hour, minute) <= now then current else last;
  }

  lemma DayInMonth(y: int, m: int, d: int)
    requires 1 <= m <= 12 && 1 <= d <= 28
    ensures ValidDate(Date(y, m, d)) && DayNumber(Date(y, m, d)) == DayNumber(Date(y, m, 1)) + d - 1
  {
  }

  function DaysUntil(w: int, day: Day): (n: int)
    requires 0 <= w <= 6
    ensures 0 <= n <= 6 && DayOfWeek(day + n) == w
  {
    var here := DayOfWeek(day);
    if w >= here then w - here else w - here + 7
  }

  /** The last such weekday of this month a year ago is late in the month, the first
      one this year is early: together they leave no gap of 370 days. */
  lemma WeekdayGap(first: Day, before: Day, k: int, j: int, time: int, now: Minutes)
    requires 365 <= first - before <= 366 && 0 <= k <= 6 && 21 <= j <= 27 && 0 <= time < 1440
    requires before + 27 < DayOf(now) <= first + 366
    ensures now < (first + k) * 1440 + time ==> now - MAX_MINUTES < (before + j) * 1440 + time <= now
    ensures (first + k) * 1440 + time <= now ==> now - MAX_MINUTES < (first + k) * 1440 + time
  {
    FieldsAt(now);
  }

  lemma WeekdayRecurs(m: int, w: int, hour: int, minute: int, now: Minutes) returns (date: Date)
    requires 1 <= m <= 12 && 0 <= w <= 6 && 0 <= hour <= 23 && 0 <= minute <= 59
    ensures ValidDate(date) && date.month == m && DayOfWeek(DayNumber(date)) == w
    ensures now - MAX_MINUTES < At(DayNumber(date), hour, minute) <= now
  {
    var y := YearOf(DayOf(now));
    var first, before := FirstOfMonths(y, m, now);
    var k, j := DaysUntil(w, first), LateDay(w, before);
    var time := hour * 60 + minute;
    WeekdayGap(first, before, k, j, time, now);
    date := if (first + k) * 1440 + time <= now then Date(y, m, 1 + k) else Date(y - 1, m, 1 + j);
    DayInMonth(y, m, 1 + k);
    DayInMonth(y - 1, m, 1 + j);
  }

  function LateDay(w: int, first: Day): (n: int)
    requires 0 <= w <= 6
    ensures 21 <= n <= 27 && DayOfWeek(first + n) == w
  {
    DaysUntil(w, first + 21) + 21
  }

  lemma FirstOfMonths(y: int, m: int, now: Minutes) returns (first: Day, before: Day)
    requires 1 <= m <= 12 && y == YearOf(DayOf(now))
    ensures first == DayNumber(Date(y, m, 1)) && before == DayNumber(Date(y - 1, m, 1))
    ensures 365 <= first - before <= 366 && before + 27 < DayOf(now) <= first + 366
  {
    first, before := DayNumber(Date(y, m, 1)), DayNumber(Date(y - 1, m, 1));
    DateInYear(Date(y, m, 1));
    DayInMonth(y - 1, m, 28);
    DateInYear(Date(y - 1, m, 28));
    YearEarlier(Date(y, m, 1));
    YearLength(y);
  }

  lemma DateMatches(p: ParsedCron, date: Date, hour: int, minute: int)
    requires ValidDate(date) && date.month in p.month && hour in p.hour && minute in p.minute
    requires 0 <= hour <= 23 && 0 <= minute <= 59
    requires (p.dowRestricted && DayOfWeek(DayNumber(date)) in p.dow) || (p.domRestricted && !p.dowRestricted && date.day in p.dom)
             || (!p.domRestricted && !p.dowRestricted)
    ensures Matches(p, At(DayNumber(date), hour, minute))
  {
    CivilDateOfDay(date);
    AtFields(DayNumber(date), hour, minute);
  }

  /** A matching minute in every window of 370 days. */
  lemma LookBackSuffices(p: ParsedCron, now: Minutes) returns (t: Minutes)
    requires ValidCron(p) && FiresEveryYear(p)
    ensures now - MAX_MINUTES < t <= now && Matches(p, t)
  {
    var hour :| hour in p.hour;
    var minute :| minute in p.minute;
    var m :| m in p.month;
    var date: Date;
    if p.dowRestricted {
      var w :| w in p.dow;
      date := WeekdayRecurs(m, w, hour, minute, now);
    } else if p.domRestricted {
      var m', d :| FixedDay(p, m', d);
      date := FixedDateRecurs(m', d, hour, minute, now);
    } else {
      date := FixedDateRecurs(m, 1, hour, minute, now);
    }
    DateMatches(p, date, hour, minute);
    t := At(DayNumber(date), hour, minute);
  }

  /** The last minute of 2022: no 29 February in the 370 days before it. */
  const END_OF_2022: Minutes := At(DayNumber(Date(2022, 12, 31)), 23, 59)

  lemma NothingBeforeEndOf2022(p: ParsedCron, u: Minutes)
    requires ValidCron(p) && !FiresEveryYear(p)
    requires END_OF_2022 - MAX_MINUTES < u <= END_OF_2022
    ensures !Matches(p, u)
  {
    var date := CivilDate(DayOf(u));
    YearIs2021Or2022(DayOf(u));
    assert date.day <= ShortestMonth(date.month);
    assert !FixedDay(p, date.month, date.day);
  }

  lemma YearIs2021Or2022(day: Day)
    requires DayOf(END_OF_2022) - 370 <= day <= DayOf(END_OF_2022)
    ensures CivilDate(day).year == 2021 || CivilDate(day).year == 2022
  {
    var date := CivilDate(day);
    DateInYear(date);
    MonthsFillTheYear(2022);
    assert DayOf(END_OF_2022) == DaysBeforeYear(2023) - 1;
    YearLength(2021);
    YearLength(2022);
    if date.year < 2021 { YearsGrow(date.year + 1, 2021); }
    if date.year > 2022 { YearsGrow(2023, date.year); }
  }

  /** MAIN RESULT. previousOccurrence finds an occurrence whatever the time is exactly
      when the weekday decides, or some day of the month field exists every year. */
  lemma PreviousNeverNullExactlyWhen(p: ParsedCron)
    requires ValidCron(p)
    ensures (forall now, r :: IsPrevious(p, now, r) ==> r.Some?) <==> FiresEveryYear(p)
  {
    if FiresEveryYear(p) {
      forall now, r | IsPrevious(p, now, r) ensures r.Some? {
        var t := LookBackSuffices(p, now);
      }
    } else {
      forall u | END_OF_2022 - MAX_MINUTES < u <= END_OF_2022 ensures !Matches(p, u) {
        NothingBeforeEndOf2022(p, u);
      }
      assert IsPrevious(p, END_OF_2022, None);
    }
  }

  /** The look-ahead of nextOccurrence is the look-back of a later instant. */
  lemma NextNeverNullExactlyWhen(p: ParsedCron)
    requires ValidCron(p)
    ensures (forall now, r :: IsNext(p, now, r) ==> r.Some?) <==> FiresEveryYear(p)
  {
    if FiresEveryYear(p) {
      forall now, r | IsNext(p, now, r) ensures r.Some? {
        var t := LookBackSuffices(p, now + MAX_MINUTES);
      }
    } else {
      forall u | END_OF_2022 - MAX_MINUTES < u <= END_OF_2022 ensures !Matches(p, u) {
        NothingBeforeEndOf2022(p, u);
      }
      assert IsNext(p, END_OF_2022 - MAX_MINUTES, None);
    }
  }

  // ── the fields simple schedules are made of ─────────────────────────

  lemma StarField(min: int, max: int)
    requires min <= max
    ensures FieldOk("*", min, max)
    ensures forall v :: InField("*", min, max, v) <==> min <= v <= max
  {
    SplitWhole("*", ',');
    assert ParsePart("*", min, max) == Some(Progression(min, max, 1));
    forall v ensures InField("*", min, max, v) <==> min <= v <= max {
      if min <= v <= max { assert PartDenotes(Split("*", ',')[0], min, max, v); }
    }
  }

  lemma DigitsAlone(token: string)
    requires Digits(token)
    ensures IndexOf(token, '/') == None && Split(token, ',') == [token] && token != "*"
  {
    assert forall c :: c in token ==> IsDigit(c);
    SplitWhole(token, ',');
  }

  lemma NumberField(token: string, min: int, max: int)
    requires Digits(token) && min <= Number(token) <= max
    ensures FieldOk(token, min, max)
    ensures forall v :: InField(token, min, max, v) <==> v == Number(token)
  {
    DigitsAlone(token);
    var n := Number(token);
    assert ParsePart(token, min, max) == Some(Progression(n, n, 1));
    forall v ensures InField(token, min, max, v) <==> v == n {
      if v == n { assert PartDenotes(Split(token, ',')[0], min, max, v); }
    }
  }
}
