/**
 Opening the simple schedule form on an expression somebody typed (apps/dashboard/src/lib/cron-builder.ts):
 when the form describes what the expression does, and what saving it unchanged would alter.
 */
module CronForm {
  import opened Wrappers
  import opened Text
  import opened Calendar
  import opened CronSchedule
  import opened CronGrammar
  import CronBuilder

  // ── the fields the form understands ─────────────────────────────────

  lemma NumberStandsForItself(token: string, min: int, max: int, v: int)
    requires Digits(token) && FieldOk(token, min, max)
    ensures min <= Number(token) <= max && (InField(token, min, max, v) <==> v == Number(token))
  {
    var p := Plain(One(token));
    assert PartText(p) == token;
    SoleField(p, min, max, v);
    PlainSteps(p, min, max, v);
  }

  lemma QuotientOfMultiple(v: int, n: int) returns (k: nat)
    requires n > 0 && v >= 0 && v % n == 0
    ensures v == k * n
  {
    k := v / n;
    assert v == n * (v / n) + v % n;
  }

  lemma Multiples(p: Part, max: int, v: int)
    requires WellFormed(p) && First(p, 0) == 0 && Last(p, max) == max && Every(p) > 0 && 0 <= v <= max
    ensures StandsFor(p, 0, max, v) <==> v % Every(p) == 0
  {
    if StandsFor(p, 0, max, v) {
      var k: nat :| v == First(p, 0) + k * Every(p);
      DivisionIsUnique(v, Every(p), k, 0);
    }
    if v % Every(p) == 0 {
      var k := QuotientOfMultiple(v, Every(p));
      assert v == First(p, 0) + k * Every(p);
    }
  }

  lemma StepStandsForMultiples(step: string, max: int, v: int)
    requires Digits(step) && Number(step) > 0 && 0 <= v <= max
    ensures InField("*/" + step, 0, max, v) <==> v % Number(step) == 0
  {
    var p := Stepped(Star, step);
    assert PartText(p) == "*/" + step && WellFormed(p) && Fits(p, 0, max);
    SoleField(p, 0, max, v);
    Multiples(p, max, v);
  }

  /** What an accepted expression looks like when the form can show it. */
  ghost predicate Shown(f: seq<string>, s: CronBuilder.SimpleSchedule)
    requires |f| == 5
  {
    && f[3] == "*"
    && (s.frequency.EveryMinutes? ==>
          && |f[0]| > 2 && f[0] == "*/" + f[0][2..] && Digits(f[0][2..]) && Number(f[0][2..]) == s.everyMinutes && 1 <= s.everyMinutes <= 59
          && f[1] == "*" && f[2] == "*" && f[4] == "*")
    && (s.frequency.Hourly? ==> Digits(f[0]) && Number(f[0]) == s.minute && f[1] == "*" && f[2] == "*" && f[4] == "*")
    && (s.frequency.Daily? || s.frequency.Weekly? || s.frequency.Monthly? ==>
          Digits(f[0]) && Number(f[0]) == s.atMinute && Digits(f[1]) && Number(f[1]) == s.hour)
    && (s.frequency.Daily? ==> f[2] == "*" && f[4] == "*")
    && (s.frequency.Weekly? ==> f[2] == "*" && Digits(f[4]) && Number(f[4]) == s.weekday)
    && (s.frequency.Monthly? ==> Digits(f[2]) && Number(f[2]) == s.monthday && f[4] == "*")
  }

  lemma ReaderIsRight(expr: string)
    requires CronBuilder.ParseToSimple(expr).Some?
    ensures |Words(expr)| == 5 && Shown(Words(expr), CronBuilder.ParseToSimple(expr).value)
  {
  }

  /** One or two digits. */
  predicate Short(token: string) {
    |token| in {1, 2} && forall i :: 0 <= i < |token| ==> '0' <= token[i] <= '9'
  }

  /** A star, a slash and a short number from 1 to 59. */
  ghost predicate EveryFew(token: string) {
    exists n :: token == "*/" + n && Short(n) && Digits(n) && 1 <= Number(n) <= 59
  }

  /** Which expressions the form shows: those whose month is free and whose other fields are short numbers or free, in the five
      patterns it knows. */
  lemma FormShowsExactlyWhen(expr: string)
    ensures CronBuilder.ParseToSimple(expr).Some? <==>
              && |Words(expr)| == 5
              && var (min, hr, dom, month, dow) := (Words(expr)[0], Words(expr)[1], Words(expr)[2], Words(expr)[3], Words(expr)[4]);
                 && month == "*"
                 && (|| ((EveryFew(min) || Short(min)) && hr == "*" && dom == "*" && dow == "*")
                     || (Short(min) && Short(hr) && dom == "*" && dow == "*")
                     || (Short(min) && Short(hr) && dom == "*" && Short(dow))
                     || (Short(min) && Short(hr) && Short(dom) && dow == "*"))
  {
    var f := Words(expr);
    if |f| == 5 {
      forall i | 0 <= i < 5 ensures Short(f[i]) <==> CronBuilder.IsNum(f[i]) { }
      if |f[0]| > 2 && f[0][..2] == "*/" { assert f[0] == "*/" + f[0][2..]; }
      forall n | f[0] == "*/" + n ensures f[0][..2] == "*/" && f[0][2..] == n { }
    }
  }

  /** When the expression fires, in the numbers the form shows; 7 is another name of Sunday. */
  ghost predicate FiresAt(s: CronBuilder.SimpleSchedule, t: Minutes) {
    match s.frequency
    case EveryMinutes => MinuteOf(t) % (if s.everyMinutes > 0 then s.everyMinutes else 1) == 0
    case Hourly => MinuteOf(t) == s.minute
    case Daily => MinuteOf(t) == s.atMinute && HourOf(t) == s.hour
    case Weekly => MinuteOf(t) == s.atMinute && HourOf(t) == s.hour && DayOfWeek(DayOf(t)) == s.weekday % 7
    case Monthly => MinuteOf(t) == s.atMinute && HourOf(t) == s.hour && CivilDate(DayOf(t)).day == s.monthday
  }

  /** The numbers are those of their fields. */
  predicate InBounds(s: CronBuilder.SimpleSchedule) {
    match s.frequency
    case EveryMinutes => 1 <= s.everyMinutes <= 59
    case Hourly => 0 <= s.minute <= 59
    case Daily => 0 <= s.atMinute <= 59 && 0 <= s.hour <= 23
    case Weekly => 0 <= s.atMinute <= 59 && 0 <= s.hour <= 23 && 0 <= s.weekday <= 7
    case Monthly => 0 <= s.atMinute <= 59 && 0 <= s.hour <= 23 && 1 <= s.monthday <= 31
  }

  lemma AnyTimeIsInBounds(t: Minutes)
    ensures InField("*", 0, 59, MinuteOf(t)) && InField("*", 0, 23, HourOf(t))
    ensures InField("*", 1, 12, CivilDate(DayOf(t)).month) && 1 <= CivilDate(DayOf(t)).day <= 31
  {
    FieldsAt(t);
    StarField(0, 59);
    StarField(0, 23);
    StarField(1, 12);
  }

  lemma TimeOfDay(f: seq<string>, t: Minutes)
    requires |f| == 5 && Digits(f[0]) && Digits(f[1]) && FieldOk(f[0], 0, 59) && FieldOk(f[1], 0, 23)
    ensures Number(f[0]) <= 59 && (InField(f[0], 0, 59, MinuteOf(t)) <==> MinuteOf(t) == Number(f[0]))
    ensures Number(f[1]) <= 23 && (InField(f[1], 0, 23, HourOf(t)) <==> HourOf(t) == Number(f[1]))
  {
    NumberStandsForItself(f[0], 0, 59, MinuteOf(t));
    NumberStandsForItself(f[1], 0, 23, HourOf(t));
  }

  lemma WeekdayReads(token: string, day: Day)
    requires Digits(token) && FieldOk(token, 0, 7)
    ensures Number(token) <= 7 && (OnWeekday(token, day) <==> DayOfWeek(day) == Number(token) % 7)
  {
    NumberStandsForItself(token, 0, 7, DayOfWeek(day));
    NumberStandsForItself(token, 0, 7, 7);
    SevenIsSunday(Number(token));
  }

  lemma SevenIsSunday(n: int)
    requires 0 <= n <= 7
    ensures n % 7 == if n == 7 then 0 else n
  {
  }

  lemma DigitsAreNoStar(token: string)
    requires Digits(token)
    ensures token != "*"
  {
    assert IsDigit(token[0]);
  }

  lemma FiresAsShown(expr: string, p: ParsedCron, s: CronBuilder.SimpleSchedule, t: Minutes)
    requires IsParseOf(p, expr) && CronBuilder.ParseToSimple(expr) == Some(s)
    ensures InBounds(s) && (Matches(p, t) <==> FiresAt(s, t))
  {
    var f := Words(expr);
    ReaderIsRight(expr);
    FiresExactlyWhen(expr, p, t);
    AnyTimeIsInBounds(t);
    assert FieldOk(f[0], BOUNDS[0].0, BOUNDS[0].1) && FieldOk(f[1], BOUNDS[1].0, BOUNDS[1].1);
    assert FieldOk(f[2], BOUNDS[2].0, BOUNDS[2].1) && FieldOk(f[4], BOUNDS[4].0, BOUNDS[4].1);
    match s.frequency
    case EveryMinutes =>
      FieldsAt(t);
      StepStandsForMultiples(f[0][2..], 59, MinuteOf(t));
    case Hourly => NumberStandsForItself(f[0], 0, 59, MinuteOf(t));
    case Daily => TimeOfDay(f, t);
    case Weekly =>
      TimeOfDay(f, t);
      WeekdayReads(f[4], DayOf(t));
      DigitsAreNoStar(f[4]);
    case Monthly =>
      TimeOfDay(f, t);
      NumberStandsForItself(f[2], 1, 31, CivilDate(DayOf(t)).day);
      DigitsAreNoStar(f[2]);
  }

  /** What the form cannot hold: Sunday written as 7 and the days after the 28th, which it clamps to Saturday and the 28th. */
  predicate Clamped(s: CronBuilder.SimpleSchedule) {
    (s.frequency.Weekly? && s.weekday == 7) || (s.frequency.Monthly? && s.monthday > 28)
  }

  lemma ClampedDiffers(s: CronBuilder.SimpleSchedule) returns (t: Minutes)
    requires InBounds(s) && Clamped(s)
    ensures FiresAt(s, t) && !CronBuilder.Intended(s, t)
  {
    var day: Day := 6;
    if s.frequency.Monthly? {
      var date := Date(1, 1, s.monthday);
      CivilDateOfDay(date);
      day := DayNumber(date);
    }
    t := At(day, s.hour, s.atMinute);
    AtFields(day, s.hour, s.atMinute);
  }

  /** MAIN RESULT. Opening the form on a valid expression that it can show and saving it unchanged keeps every firing and adds
      none, if and only if the expression does not write Sunday as 7 and names no day of the month after the 28th. */
  lemma FormKeepsTheScheduleExactlyWhen(expr: string, p: ParsedCron, s: CronBuilder.SimpleSchedule)
    requires IsParseOf(p, expr) && CronBuilder.ParseToSimple(expr) == Some(s)
    ensures CronBuilder.Behaves(p, s) <==> !Clamped(s)
  {
    FiresAsShown(expr, p, s, 0);
    if Clamped(s) {
      var t := ClampedDiffers(s);
      FiresAsShown(expr, p, s, t);
    } else {
      forall t ensures Matches(p, t) <==> CronBuilder.Intended(s, t) {
        FiresAsShown(expr, p, s, t);
        NotClampedIsIntended(s, t);
      }
    }
  }

  lemma NotClampedIsIntended(s: CronBuilder.SimpleSchedule, t: Minutes)
    requires InBounds(s) && !Clamped(s)
    ensures FiresAt(s, t) <==> CronBuilder.Intended(s, t)
  {
  }

  /** The exception is met by an expression the service accepts: "0 3 * * 7". */
  lemma SundayMayMove(expr: string)
    requires expr == FiveFields("0", "3", "*", "*", "7")
    ensures CronOk(expr) && CronBuilder.ParseToSimple(expr).Some? && Clamped(CronBuilder.ParseToSimple(expr).value)
  {
    DigitField("0", 0, 59);
    DigitField("3", 0, 23);
    DigitField("7", 0, 7);
    StarField(1, 31);
    StarField(1, 12);
    WordsOfFive("0", "3", "*", "*", "7");
    FieldsOfSunday(expr, Words(expr));
  }

  lemma FieldsOfSunday(expr: string, f: seq<string>)
    requires Words(expr) == f == ["0", "3", "*", "*", "7"]
    requires Digits("0") && Digits("3") && Digits("7") && Number("0") == 0 && Number("3") == 3 && Number("7") == 7
    requires FieldOk("0", 0, 59) && FieldOk("3", 0, 23) && FieldOk("*", 1, 31) && FieldOk("*", 1, 12) && FieldOk("7", 0, 7)
    ensures CronOk(expr)
    ensures CronBuilder.ParseToSimple(expr) ==
              Some(CronBuilder.DEFAULT_SIMPLE.(frequency := CronBuilder.Weekly, atMinute := 0, hour := 3, weekday := 7))
  {
  }

  lemma DigitField(token: string, min: int, max: int)
    requires |token| == 1 && IsDigit(token[0]) && min <= token[0] as int - '0' as int <= max
    ensures Digits(token) && Number(token) == token[0] as int - '0' as int && token != "*" && FieldOk(token, min, max)
  {
    DigitsAreNoStar(token);
    assert PartText(Plain(One(token))) == token;
    SoleField(Plain(One(token)), min, max, 0);
  }
}
