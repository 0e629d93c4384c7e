/**
 The backups' closed-form schedule (apps/api/src/modules/backups/backup-schedule.util.ts)
 and its agreement with the cron search. Instants are milliseconds since the
 start of day 0; setHours and setDate are arithmetic on a linear local clock.
 */
module BackupSchedule {
  import opened Wrappers
  import opened Text
  import opened Calendar
  import opened CronSchedule

  const MINUTE := 60000
  const HOUR := 3600000
  const DAY := 86400000

  /** The cron expression an alias stands for; any other text stands for itself. */
  function AsCron(schedule: string): string {
    var w := Words(schedule);
    if w == ["@hourly"] then FiveFields("0", "*", "*", "*", "*")
    else if w == ["@daily"] then FiveFields("0", "0", "*", "*", "*")
    else if w == ["@weekly"] then WEEKLY
    else schedule
  }

  const WEEKLY := FiveFields("0", "0", "*", "*", "0")

  predicate ShortNumber(s: string) {
    Digits(s) && |s| <= 2
  }

  lemma ShortNumbersAre(s: string)
    ensures ShortNumber(s) <==> |s| in {1, 2} && forall i :: 0 <= i < |s| ==> '0' <= s[i] <= '9'
  {
  }

  /** The texts the closed form answers. */
  predicate Supported(schedule: string) {
    var w := Words(schedule);
    || w == ["@hourly"] || w == ["@daily"] || w == ["@weekly"]
    || (|w| == 5 && w[2..] == ["*", "*", "*"] && ShortNumber(w[0]) && Number(w[0]) <= 59
        && (w[1] == "*" || (ShortNumber(w[1]) && Number(w[1]) <= 23)))
  }

  /** `d` is what the cron search answers for `expr` at `now`, and a whole minute. */
  ghost predicate Agrees(expr: string, now: int, d: int) {
    && CronOk(expr)
    && d % MINUTE == 0
    && forall p :: IsParseOf(p, expr) ==> IsPrevious(p, MinuteFloor(now), Some(d / MINUTE))
  }

  /** Sets the fields of one Date, and steps back one period when it lies ahead. */
  method PreviousOccurrence(schedule: string, now: int) returns (r: Option<int>)
    ensures r.Some? <==> Supported(schedule)
    ensures r.Some? ==> Agrees(AsCron(schedule), now, r.value)
  {
    var w := Words(schedule);
    var d := now;
    if w == ["@hourly"] {
      d := d - d % HOUR;
      HourlyAlias();
      Hourly("0", FiveFields("0", "*", "*", "*", "*"), now, d);
      return Some(d);
    }
    if w == ["@daily"] {
      d := d - d % DAY;
      DailyAlias();
      Daily("0", "0", FiveFields("0", "0", "*", "*", "*"), now, d);
      return Some(d);
    }
    if w == ["@weekly"] {
      d := d - d % DAY;
      d := d - DayOfWeek(d / DAY) * DAY;
      Weekly(now, d);
      return Some(d);
    }
    if |w| != 5 || w[2..] != ["*", "*", "*"] || !ShortNumber(w[0]) { return None; }
    if !(w[1] == "*" || ShortNumber(w[1])) { return None; }
    var minute := Number(w[0]);
    if minute > 59 { return None; }
    if w[1] == "*" {
      d := d - d % HOUR + minute * MINUTE;
      if d > now { d := d - HOUR; }
      Hourly(w[0], schedule, now, d);
      return Some(d);
    }
    var hour := Number(w[1]);
    if hour > 23 { return None; }
    d := d - d % DAY + hour * HOUR + minute * MINUTE;
    if d > now { d := d - DAY; }
    Daily(w[0], w[1], schedule, now, d);
    return Some(d);
  }

  // ── agreement with the search ───────────────────────────────────────

  predicate Simple(expr: string, m: string, h: string, dow: string) {
    && Words(expr) == [m, h, "*", "*", dow]
    && Digits(m) && Number(m) <= 59
    && (h == "*" || (Digits(h) && Number(h) <= 23))
    && (dow == "*" || dow == "0")
  }

  lemma SimpleIsCron(expr: string, m: string, h: string, dow: string)
    requires Simple(expr, m, h, dow)
    ensures CronOk(expr)
  {
    SimpleFields(m, h, dow);
    var fields := Words(expr);
    forall i | 0 <= i < 5 ensures FieldOk(fields[i], BOUNDS[i].0, BOUNDS[i].1) {}
  }

  lemma SimpleFields(m: string, h: string, dow: string)
    requires Digits(m) && Number(m) <= 59 && (h == "*" || (Digits(h) && Number(h) <= 23)) && (dow == "*" || dow == "0")
    ensures FieldOk(m, 0, 59) && FieldOk(h, 0, 23) && FieldOk("*", 1, 31) && FieldOk("*", 1, 12) && FieldOk(dow, 0, 7)
    ensures forall v :: InField(m, 0, 59, v) <==> v == Number(m)
    ensures forall v :: InField(h, 0, 23, v) <==> if h == "*" then 0 <= v <= 23 else v == Number(h)
    ensures forall v :: InField("*", 1, 12, v) <==> 1 <= v <= 12
    ensures forall v :: InField(dow, 0, 7, v) <==> if dow == "*" then 0 <= v <= 7 else v == 0
  {
    NumberField(m, 0, 59);
    StarField(0, 23);
    StarField(1, 31);
    StarField(1, 12);
    StarField(0, 7);
    assert Number("0") == 0;
    NumberField("0", 0, 7);
    if h != "*" { NumberField(h, 0, 23); }
  }

  lemma SimpleSets(expr: string, m: string, h: string, dow: string, p: ParsedCron)
    requires Simple(expr, m, h, dow) && IsParseOf(p, expr)
    ensures forall v :: v in p.minute <==> v == Number(m)
    ensures forall v :: v in p.hour <==> if h == "*" then 0 <= v <= 23 else v == Number(h)
    ensures forall v :: v in p.month <==> 1 <= v <= 12
    ensures dow != "*" ==> forall v :: v in p.dow <==> v == 0
    ensures !p.domRestricted && (p.dowRestricted <==> dow != "*")
  {
    SimpleFields(m, h, dow);
  }

  /** The parse of "<minute> <hour> * * <dow>": only those three fields decide. */
  lemma SimpleMatches(expr: string, m: string, h: string, dow: string, p: ParsedCron, t: Minutes)
    requires Simple(expr, m, h, dow) && IsParseOf(p, expr)
    ensures Matches(p, t) <==>
              && MinuteOf(t) == Number(m)
              && (h == "*" || HourOf(t) == Number(h))
              && (dow == "*" || DayOfWeek(DayOf(t)) == 0)
  {
    SimpleSets(expr, m, h, dow, p);
    FieldsAt(t);
  }

  lemma Hourly(m: string, expr: string, now: int, d: int)
    requires Simple(expr, m, "*", "*")
    requires d == (var c := now - now % HOUR + Number(m) * MINUTE; if c > now then c - HOUR else c)
    ensures Agrees(expr, now, d)
  {
    SimpleIsCron(expr, m, "*", "*");
    HourlyArithmetic(Number(m), now, d);
    forall p, t | IsParseOf(p, expr) ensures Matches(p, t) <==> MinuteOf(t) == Number(m) {
      SimpleMatches(expr, m, "*", "*", p, t);
    }
  }

  lemma HourlyArithmetic(minute: int, now: int, d: int)
    requires 0 <= minute <= 59
    requires d == (var c := now - now % HOUR + minute * MINUTE; if c > now then c - HOUR else c)
    ensures d % MINUTE == 0 && MinuteOf(d / MINUTE) == minute
    ensures MinuteFloor(now) - MAX_MINUTES < d / MINUTE <= MinuteFloor(now)
    ensures forall u :: d / MINUTE < u <= MinuteFloor(now) ==> MinuteOf(u) != minute
  {
    var h := now / HOUR;
    var k := if h * 60 + minute > MinuteFloor(now) then h - 1 else h;
    assert d == (k * 60 + minute) * MINUTE;
  }

  lemma Daily(m: string, h: string, expr: string, now: int, d: int)
    requires Simple(expr, m, h, "*") && h != "*"
    requires d == (var c := now - now % DAY + Number(h) * HOUR + Number(m) * MINUTE; if c > now then c - DAY else c)
    ensures Agrees(expr, now, d)
  {
    SimpleIsCron(expr, m, h, "*");
    DailyArithmetic(Number(m), Number(h), now, d);
    forall p, t | IsParseOf(p, expr) ensures Matches(p, t) <==> MinuteOf(t) == Number(m) && HourOf(t) == Number(h) {
      SimpleMatches(expr, m, h, "*", p, t);
    }
  }

  /** A whole minute lies ahead of `now` exactly when it lies ahead of the minute of `now`. */
  lemma WholeMinutes(a: int, now: int)
    ensures a * MINUTE > now <==> a > MinuteFloor(now)
    ensures (a * MINUTE) % MINUTE == 0 && (a * MINUTE) / MINUTE == a
  {
  }

  lemma DailyArithmetic(minute: int, hour: int, now: int, d: int)
    requires 0 <= minute <= 59 && 0 <= hour <= 23
    requires d == (var c := now - now % DAY + hour * HOUR + minute * MINUTE; if c > now then c - DAY else c)
    ensures d % MINUTE == 0 && MinuteOf(d / MINUTE) == minute && HourOf(d / MINUTE) == hour
    ensures MinuteFloor(now) - MAX_MINUTES < d / MINUTE <= MinuteFloor(now)
    ensures forall u :: d / MINUTE < u <= MinuteFloor(now) ==> !(MinuteOf(u) == minute && HourOf(u) == hour)
  {
    var n := now / DAY;
    assert now - now % DAY == n * DAY;
    WholeMinutes(At(n, hour, minute), now);
    var k := if At(n, hour, minute) > MinuteFloor(now) then n - 1 else n;
    WholeMinutes(At(k, hour, minute), now);
    assert d == At(k, hour, minute) * MINUTE;
    AtFields(k, hour, minute);
    forall u | At(k, hour, minute) < u <= MinuteFloor(now) ensures !(MinuteOf(u) == minute && HourOf(u) == hour) {
      FieldsAt(u);
      if DayOf(u) == k { assert u == At(k, HourOf(u), MinuteOf(u)); }
    }
  }

  lemma Weekly(now: int, d: int)
    requires d == (var c := now - now % DAY; c - DayOfWeek(c / DAY) * DAY)
    ensures Agrees(WEEKLY, now, d)
  {
    var expr := WEEKLY;
    WeeklyAlias();
    SimpleIsCron(expr, "0", "0", "0");
    WeeklyArithmetic(now, d);
    forall p, t | IsParseOf(p, expr)
      ensures Matches(p, t) <==> MinuteOf(t) == 0 && HourOf(t) == 0 && DayOfWeek(DayOf(t)) == 0
    {
      SimpleMatches(expr, "0", "0", "0", p, t);
    }
  }

  lemma WeeklyArithmetic(now: int, d: int)
    requires d == (var c := now - now % DAY; c - DayOfWeek(c / DAY) * DAY)
    ensures d % MINUTE == 0
    ensures MinuteOf(d / MINUTE) == 0 && HourOf(d / MINUTE) == 0 && DayOfWeek(DayOf(d / MINUTE)) == 0
    ensures MinuteFloor(now) - MAX_MINUTES < d / MINUTE <= MinuteFloor(now)
    ensures forall u :: d / MINUTE < u <= MinuteFloor(now) ==>
              !(MinuteOf(u) == 0 && HourOf(u) == 0 && DayOfWeek(DayOf(u)) == 0)
  {
    var n := now / DAY;
    var k := n - DayOfWeek(n);
    StartOfDay(now);
    assert d == At(k, 0, 0) * MINUTE;
    WholeMinutes(At(k, 0, 0), now);
    AtFields(k, 0, 0);
    LastSunday(n);
    forall u | At(k, 0, 0) < u <= MinuteFloor(now)
      ensures !(MinuteOf(u) == 0 && HourOf(u) == 0 && DayOfWeek(DayOf(u)) == 0)
    {
      FieldsAt(u);
      if MinuteOf(u) == 0 && HourOf(u) == 0 {
        assert u == At(DayOf(u), 0, 0);
        NoSundayBetween(n, DayOf(u));
      }
    }
  }

  lemma StartOfDay(now: int)
    ensures now - now % DAY == now / DAY * DAY
    ensures now / DAY * 1440 <= MinuteFloor(now) < (now / DAY + 1) * 1440
  {
  }

  lemma LastSunday(n: Day)
    ensures DayOfWeek(n - DayOfWeek(n)) == 0
  {
  }

  lemma NoSundayBetween(n: Day, day: Day)
    requires n - DayOfWeek(n) < day <= n
    ensures DayOfWeek(day) != 0
  {
  }

  lemma ZeroIsANumber()
    ensures Digits("0") && Number("0") == 0 && |"0"| == 1
  {
  }

  lemma HourlyAlias()
    ensures Simple(FiveFields("0", "*", "*", "*", "*"), "0", "*", "*")
  {
    ZeroIsANumber();
    WordsOfFive("0", "*", "*", "*", "*");
  }

  lemma DailyAlias()
    ensures Simple(FiveFields("0", "0", "*", "*", "*"), "0", "0", "*")
  {
    ZeroIsANumber();
    WordsOfFive("0", "0", "*", "*", "*");
  }

  lemma WeeklyAlias()
    ensures Simple(WEEKLY, "0", "0", "0")
  {
    ZeroIsANumber();
    WordsOfFive("0", "0", "*", "*", "0");
  }
}
