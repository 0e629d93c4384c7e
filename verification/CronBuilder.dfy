/**
 The dashboard's simple schedule form (apps/dashboard/src/lib/cron-builder.ts):
 its printer, its reader, and what the printed expression means to the API's parser.
 */
module CronBuilder {
  import opened Wrappers
  import opened Text
  import opened Calendar
  import opened CronSchedule

  datatype Frequency = EveryMinutes | Hourly | Daily | Weekly | Monthly

  datatype SimpleSchedule = SimpleSchedule(
    frequency: Frequency, everyMinutes: int, minute: int, hour: int, atMinute: int, weekday: int, monthday: int)

  const DEFAULT_SIMPLE := SimpleSchedule(Daily, 5, 0, 3, 0, 1, 1)

  /** Math.min(Math.max(n, lo), hi); rounding changes no integer. */
  function Clamp(n: int, lo: int, hi: int): (r: int)
    requires lo <= hi
    ensures lo <= r <= hi && (lo <= n <= hi ==> r == n) && (n < lo ==> r == lo) && (n > hi ==> r == hi)
  {
    var low := if n < lo then lo else n;
    if low > hi then hi else low
  }

  function ClampedText(n: int, lo: nat, hi: nat): string
    requires lo <= hi
  {
    Decimal(Clamp(n, lo, hi))
  }

  /** The five fields buildCron prints. */
  function Fields(s: SimpleSchedule): (f: seq<string>)
    ensures |f| == 5
  {
    match s.frequency
    case EveryMinutes => ["*/" + ClampedText(s.everyMinutes, 1, 59), "*", "*", "*", "*"]
    case Hourly => [ClampedText(s.minute, 0, 59), "*", "*", "*", "*"]
    case Daily => [ClampedText(s.atMinute, 0, 59), ClampedText(s.hour, 0, 23), "*", "*", "*"]
    case Weekly => [ClampedText(s.atMinute, 0, 59), ClampedText(s.hour, 0, 23), "*", "*", ClampedText(s.weekday, 0, 6)]
    case Monthly => [ClampedText(s.atMinute, 0, 59), ClampedText(s.hour, 0, 23), ClampedText(s.monthday, 1, 28), "*", "*"]
  }

  function BuildCron(s: SimpleSchedule): string {
    var f := Fields(s);
    FiveFields(f[0], f[1], f[2], f[3], f[4])
  }

  /** /^\d{1,2}$/ */
  predicate IsNum(s: string) {
    Digits(s) && |s| <= 2
  }

  function ParseToSimple(expr: string): Option<SimpleSchedule> {
    var f := Words(expr);
    if |f| != 5 || f[3] != "*" then None
    else
      var (min, hr, dom, dow) := (f[0], f[1], f[2], f[4]);
      if |min| > 2 && min[..2] == "*/" && IsNum(min[2..]) && hr == "*" && dom == "*" && dow == "*"
         && 1 <= Number(min[2..]) <= 59 then
        Some(DEFAULT_SIMPLE.(frequency := EveryMinutes, everyMinutes := Number(min[2..])))
      else if !IsNum(min) then None
      else if hr == "*" && dom == "*" && dow == "*" then
        Some(DEFAULT_SIMPLE.(frequency := Hourly, minute := Number(min)))
      else if !IsNum(hr) then None
      else if dom == "*" && dow == "*" then
        Some(DEFAULT_SIMPLE.(frequency := Daily, atMinute := Number(min), hour := Number(hr)))
      else if dom == "*" && IsNum(dow) then
        Some(DEFAULT_SIMPLE.(frequency := Weekly, atMinute := Number(min), hour := Number(hr), weekday := Number(dow)))
      else if IsNum(dom) && dow == "*" then
        Some(DEFAULT_SIMPLE.(frequency := Monthly, atMinute := Number(min), hour := Number(hr), monthday := Number(dom)))
      else None
  }

  /** The schedule with the fields its frequency uses clamped and the rest at their defaults. */
  function Normalized(s: SimpleSchedule): SimpleSchedule {
    var base := DEFAULT_SIMPLE.(frequency := s.frequency);
    var timed := base.(atMinute := Clamp(s.atMinute, 0, 59), hour := Clamp(s.hour, 0, 23));
    match s.frequency
    case EveryMinutes => base.(everyMinutes := Clamp(s.everyMinutes, 1, 59))
    case Hourly => base.(minute := Clamp(s.minute, 0, 59))
    case Daily => timed
    case Weekly => timed.(weekday := Clamp(s.weekday, 0, 6))
    case Monthly => timed.(monthday := Clamp(s.monthday, 1, 28))
  }

  // ── reading back what was printed ───────────────────────────────────

  lemma ClampedTextIsNum(n: int, lo: nat, hi: nat)
    requires lo <= hi < 100
    ensures var t := ClampedText(n, lo, hi); IsNum(t) && NoSpace(t) && t != "*" && Number(t) == Clamp(n, lo, hi)
  {
    NumberOfDecimal(Clamp(n, lo, hi));
    DecimalWidth(Clamp(n, lo, hi));
    DigitsAlone(ClampedText(n, lo, hi));
  }

  predicate Plain(f: string) {
    f != "" && NoSpace(f)
  }

  lemma StepTextIsPlain(n: int)
    ensures Plain("*/" + ClampedText(n, 1, 59))
  {
    ClampedTextIsNum(n, 1, 59);
    var t := ClampedText(n, 1, 59);
    forall i | 0 <= i < |"*/" + t| ensures !IsSpace(("*/" + t)[i]) {
      if i >= 2 { assert ("*/" + t)[i] == t[i - 2]; }
    }
  }

  lemma FieldsArePlain(s: SimpleSchedule)
    ensures forall i :: 0 <= i < 5 ==> Plain(Fields(s)[i])
  {
    match s.frequency
    case EveryMinutes => StepTextIsPlain(s.everyMinutes);
    case Hourly => ClampedTextIsNum(s.minute, 0, 59);
    case Daily => ClampedTextIsNum(s.atMinute, 0, 59); ClampedTextIsNum(s.hour, 0, 23);
    case Weekly => ClampedTextIsNum(s.atMinute, 0, 59); ClampedTextIsNum(s.hour, 0, 23); ClampedTextIsNum(s.weekday, 0, 6);
    case Monthly => ClampedTextIsNum(s.atMinute, 0, 59); ClampedTextIsNum(s.hour, 0, 23); ClampedTextIsNum(s.monthday, 1, 28);
  }

  lemma WordsOfBuilt(s: SimpleSchedule)
    ensures Words(BuildCron(s)) == Fields(s)
  {
    FieldsArePlain(s);
    var f := Fields(s);
    assert Plain(f[0]) && Plain(f[1]) && Plain(f[2]) && Plain(f[3]) && Plain(f[4]);
    WordsOfFive(f[0], f[1], f[2], f[3], f[4]);
  }

  /** MAIN RESULT. Reading a printed schedule gives its normal form back. */
  lemma ReadsBackWhatItBuilt(s: SimpleSchedule)
    ensures ParseToSimple(BuildCron(s)) == Some(Normalized(s))
  {
    WordsOfBuilt(s);
    if s.frequency.EveryMinutes? {
      var n := ClampedText(s.everyMinutes, 1, 59);
      ClampedTextIsNum(s.everyMinutes, 1, 59);
      assert ("*/" + n)[2..] == n && ("*/" + n)[..2] == "*/";
    } else if s.frequency.Hourly? {
      ClampedTextIsNum(s.minute, 0, 59);
    } else {
      ClampedTextIsNum(s.atMinute, 0, 59);
      ClampedTextIsNum(s.hour, 0, 23);
      if s.frequency.Weekly? { ClampedTextIsNum(s.weekday, 0, 6); }
      if s.frequency.Monthly? { ClampedTextIsNum(s.monthday, 1, 28); }
    }
  }

  // ── what the printed expression means ───────────────────────────────

  /** When the form promises the job to run. */
  predicate Intended(s: SimpleSchedule, t: Minutes) {
    var n := Normalized(s);
    match s.frequency
    case EveryMinutes => MinuteOf(t) % n.everyMinutes == 0
    case Hourly => MinuteOf(t) == n.minute
    case Daily => MinuteOf(t) == n.atMinute && HourOf(t) == n.hour
    case Weekly => MinuteOf(t) == n.atMinute && HourOf(t) == n.hour && DayOfWeek(DayOf(t)) == n.weekday
    case Monthly => MinuteOf(t) == n.atMinute && HourOf(t) == n.hour && CivilDate(DayOf(t)).day == n.monthday
  }

  lemma StepField(n: nat, max: nat)
    requires 1 <= n
    ensures FieldOk("*/" + Decimal(n), 0, max)
    ensures forall v :: InField("*/" + Decimal(n), 0, max, v) <==> 0 <= v <= max && v % n == 0
  {
    var token := "*/" + Decimal(n);
    StepTextParses(n, max);
    SplitWhole(token, ',');
    forall v ensures InField(token, 0, max, v) <==> 0 <= v <= max && v % n == 0 {
      if 0 <= v <= max && v % n == 0 { assert PartDenotes(Split(token, ',')[0], 0, max, v); }
    }
  }

  lemma StepTextParses(n: nat, max: nat)
    requires 1 <= n
    ensures ParsePart("*/" + Decimal(n), 0, max) == Some(Progression(0, max, n))
    ensures ',' !in "*/" + Decimal(n)
  {
    var digits := Decimal(n);
    NumberOfDecimal(n);
    DigitsAlone(digits);
    IndexOfFirst("*", '/', digits);
    assert "*/" + digits == "*" + ['/'] + digits;
    assert ("*/" + digits)[2..] == digits && ("*/" + digits)[..1] == "*";
    forall c | c in digits ensures IsDigit(c) {}
  }

  lemma TextField(n: int, lo: nat, hi: nat, max: nat)
    requires lo <= hi <= max < 100
    ensures FieldOk(ClampedText(n, lo, hi), lo, max)
    ensures forall v :: InField(ClampedText(n, lo, hi), lo, max, v) <==> v == Clamp(n, lo, hi)
    ensures ClampedText(n, lo, hi) != "*"
  {
    ClampedTextIsNum(n, lo, hi);
    NumberField(ClampedText(n, lo, hi), lo, max);
  }

  lemma BuiltField(s: SimpleSchedule, i: nat)
    requires i < 5
    ensures FieldOk(Fields(s)[i], BOUNDS[i].0, BOUNDS[i].1)
  {
    StarField(BOUNDS[i].0, BOUNDS[i].1);
    if i == 0 {
      match s.frequency
      case EveryMinutes => StepField(Clamp(s.everyMinutes, 1, 59), 59);
      case Hourly => TextField(s.minute, 0, 59, 59);
      case _ => TextField(s.atMinute, 0, 59, 59);
    } else if i == 1 {
      TextField(s.hour, 0, 23, 23);
    } else if i == 2 {
      TextField(s.monthday, 1, 28, 31);
    } else if i == 4 {
      TextField(s.weekday, 0, 6, 7);
    }
  }

  /** The API accepts everything the form prints ... */
  lemma BuiltIsValidCron(s: SimpleSchedule)
    ensures CronOk(BuildCron(s))
  {
    WordsOfBuilt(s);
    forall i | 0 <= i < 5 ensures FieldOk(Fields(s)[i], BOUNDS[i].0, BOUNDS[i].1) {
      BuiltField(s, i);
    }
  }

  /** MAIN RESULT. ... and fires exactly when the form says. */
  lemma BuiltFiresAsIntended(s: SimpleSchedule, p: ParsedCron, t: Minutes)
    requires IsParseOf(p, BuildCron(s))
    ensures Matches(p, t) <==> Intended(s, t)
  {
    WordsOfBuilt(s);
    FieldsAt(t);
    StarField(0, 23);
    StarField(1, 31);
    StarField(1, 12);
    StarField(0, 7);
    match s.frequency
    case EveryMinutes => StepField(Clamp(s.everyMinutes, 1, 59), 59);
    case Hourly => TextField(s.minute, 0, 59, 59);
    case Daily => TextField(s.atMinute, 0, 59, 59); TextField(s.hour, 0, 23, 23);
    case Weekly => TextField(s.atMinute, 0, 59, 59); TextField(s.hour, 0, 23, 23); TextField(s.weekday, 0, 6, 7);
    case Monthly => TextField(s.atMinute, 0, 59, 59); TextField(s.hour, 0, 23, 23); TextField(s.monthday, 1, 28, 31);
  }

  ghost predicate Behaves(p: ParsedCron, s: SimpleSchedule) {
    forall t :: Matches(p, t) <==> Intended(s, t)
  }

  /** A monthly schedule fires exactly once in every calendar month. */
  lemma MonthlyFiresOncePerMonth(s: SimpleSchedule, p: ParsedCron, year: int, month: int)
    requires s.frequency.Monthly? && IsParseOf(p, BuildCron(s)) && 1 <= month <= 12
    ensures exists t :: FiresIn(p, year, month, t)
    ensures forall t, u :: FiresIn(p, year, month, t) && FiresIn(p, year, month, u) ==> t == u
  {
    assert Behaves(p, s) by {
      forall t ensures Matches(p, t) <==> Intended(s, t) {
        BuiltFiresAsIntended(s, p, t);
      }
    }
    OncePerMonth(s, p, year, month);
  }

  lemma OncePerMonth(s: SimpleSchedule, p: ParsedCron, year: int, month: int)
    requires s.frequency.Monthly? && Behaves(p, s) && 1 <= month <= 12
    ensures exists t :: FiresIn(p, year, month, t)
    ensures forall t, u :: FiresIn(p, year, month, t) && FiresIn(p, year, month, u) ==> t == u
  {
    var n := Normalized(s);
    var date := Date(year, month, n.monthday);
    var t := At(DayNumber(date), n.hour, n.atMinute);
    CivilDateOfDay(date);
    AtFields(DayNumber(date), n.hour, n.atMinute);
    assert Intended(s, t);
    assert FiresIn(p, year, month, t);
    forall u | FiresIn(p, year, month, u) ensures u == t {
      assert Intended(s, u);
      FieldsAt(u);
      assert CivilDate(DayOf(u)) == date;
    }
  }

  ghost predicate FiresIn(p: ParsedCron, year: int, month: int, t: Minutes) {
    Matches(p, t) && CivilDate(DayOf(t)).year == year && CivilDate(DayOf(t)).month == month
  }

  /** No simple schedule can fall silent: each has an occurrence in every 370 days. */
  lemma SimpleSchedulesNeverStarve(s: SimpleSchedule, p: ParsedCron, now: Minutes, r: Option<Minutes>)
    requires IsParseOf(p, BuildCron(s)) && IsPrevious(p, now, r)
    ensures r.Some?
  {
    ParseIsValid(p, BuildCron(s));
    WordsOfBuilt(s);
    SimpleFiresEveryYear(s, p);
    PreviousNeverNullExactlyWhen(p);
  }

  lemma SimpleFiresEveryYear(s: SimpleSchedule, p: ParsedCron)
    requires ValidCron(p) && ReadsAs(p.dom, Fields(s)[2], 1, 31) && (p.domRestricted <==> Fields(s)[2] != "*")
    ensures FiresEveryYear(p)
  {
    if s.frequency.Monthly? {
      TextField(s.monthday, 1, 28, 31);
      var m :| m in p.month;
      assert FixedDay(p, m, Clamp(s.monthday, 1, 28));
    }
  }
}
