/**
 The language of the cron parser (apps/api/src/modules/cron/cron-schedule.util.ts), told without
 the parser: the texts a field may be, the numbers they stand for, and the minutes a whole
 expression fires at.
 */
module CronGrammar {
  import opened Wrappers
  import opened Text
  import opened Calendar
  import opened CronSchedule

  /** "*", "5" or "1-5"; the numbers are digits, leading zeros allowed. */
  datatype Range = Star | One(n: string) | Span(a: string, b: string)

  /** A range, or a range and "/" and a step. */
  datatype Part = Plain(range: Range) | Stepped(range: Range, step: string)

  predicate RangeOk(r: Range) {
    (r.One? ==> Digits(r.n)) && (r.Span? ==> Digits(r.a) && Digits(r.b))
  }

  predicate WellFormed(p: Part) {
    RangeOk(p.range) && (p.Stepped? ==> Digits(p.step))
  }

  function RangeText(r: Range): string {
    match r
    case Star => "*"
    case One(n) => n
    case Span(a, b) => a + "-" + b
  }

  function PartText(p: Part): string {
    match p
    case Plain(range) => RangeText(range)
    case Stepped(range, step) => RangeText(range) + "/" + step
  }

  function First(p: Part, min: int): int
    requires WellFormed(p)
  {
    match p.range
    case Star => min
    case One(n) => Number(n)
    case Span(a, _) => Number(a)
  }

  /** A single number with a step runs up to the end of the field. */
  function Last(p: Part, max: int): int
    requires WellFormed(p)
  {
    match p.range
    case Star => max
    case One(n) => if p.Stepped? then max else Number(n)
    case Span(_, b) => Number(b)
  }

  function Every(p: Part): int
    requires WellFormed(p)
  {
    if p.Stepped? then Number(p.step) else 1
  }

  ghost predicate Fits(p: Part, min: int, max: int)
    requires WellFormed(p)
  {
    min <= First(p, min) <= Last(p, max) <= max && Every(p) > 0
  }

  /** `v` is the first number, or some steps further, and not beyond the last. */
  ghost predicate StandsFor(p: Part, min: int, max: int, v: int)
    requires WellFormed(p)
  {
    v <= Last(p, max) && exists k: nat :: v == First(p, min) + k * Every(p)
  }

  // ── one part ────────────────────────────────────────────────────────

  lemma DigitsHaveNone(s: string)
    requires Digits(s)
    ensures '-' !in s && '/' !in s && ',' !in s && s != "*"
  {
    assert IsDigit(s[0]);
  }

  lemma RangeReads(r: Range, stepped: bool, min: int, max: int)
    requires RangeOk(r)
    ensures ParseRange(RangeText(r), stepped, min, max) == match r
      case Star => Some((min, max))
      case One(n) => Some((Number(n) as int, if stepped then max else Number(n)))
      case Span(a, b) => Some((Number(a) as int, Number(b) as int))
    ensures '/' !in RangeText(r) && ',' !in RangeText(r)
  {
    match r
    case Star =>
    case One(n) => DigitsHaveNone(n);
    case Span(a, b) =>
      DigitsHaveNone(a);
      DigitsHaveNone(b);
      IndexOfFirst(a, '-', b);
      var text := a + "-" + b;
      assert text == a + ['-'] + b && text[|a|] == '-' && text[..|a|] == a && text[|a| + 1..] == b;
  }

  /** A part of the grammar is accepted exactly when its numbers fit the field. */
  lemma PartReads(p: Part, min: int, max: int)
    requires WellFormed(p)
    ensures ',' !in PartText(p)
    ensures ParsePart(PartText(p), min, max) ==
              if Fits(p, min, max) then Some(Progression(First(p, min), Last(p, max), Every(p))) else None
  {
    RangeReads(p.range, p.Stepped?, min, max);
    if p.Stepped? {
      DigitsHaveNone(p.step);
      var range, text := RangeText(p.range), PartText(p);
      IndexOfFirst(range, '/', p.step);
      assert text == range + ['/'] + p.step && text[..|range|] == range && text[|range| + 1..] == p.step;
    } else {
      assert Digits("1") && Number("1") == 1;
    }
  }

  lemma AcceptedIsRange(text: string, stepped: bool, min: int, max: int) returns (r: Range)
    requires ParseRange(text, stepped, min, max).Some?
    ensures RangeOk(r) && RangeText(r) == text
  {
    if text == "*" { return Star; }
    if Digits(text) { return One(text); }
    var i := IndexOf(text, '-').value;
    r := Span(text[..i], text[i + 1..]);
    assert text == text[..i] + "-" + text[i + 1..];
  }

  /** Whatever the parser accepts is a part of the grammar. */
  lemma AcceptedIsPart(text: string, min: int, max: int) returns (p: Part)
    requires ParsePart(text, min, max).Some?
    ensures WellFormed(p) && PartText(p) == text
  {
    var slash := IndexOf(text, '/');
    if slash.Some? {
      var i := slash.value;
      var r := AcceptedIsRange(text[..i], true, min, max);
      p := Stepped(r, text[i + 1..]);
      assert text == text[..i] + "/" + text[i + 1..];
    } else {
      var r := AcceptedIsRange(text, false, min, max);
      p := Plain(r);
    }
  }

  lemma DenotesIsStandsFor(p: Part, min: int, max: int, v: int)
    requires WellFormed(p) && Fits(p, min, max)
    ensures Denotes(Progression(First(p, min), Last(p, max), Every(p)), v) <==> StandsFor(p, min, max, v)
  {
    var lo, step := First(p, min), Every(p);
    if Denotes(Progression(lo, Last(p, max), step), v) {
      var k := StepsFrom(lo, step, v);
      assert v == First(p, min) + k * Every(p);
    }
    if StandsFor(p, min, max, v) {
      var k: nat :| v == First(p, min) + k * Every(p);
      AfterSteps(lo, step, k);
    }
  }

  lemma StepsFrom(lo: int, step: int, v: int) returns (k: nat)
    requires step > 0 && lo <= v && (v - lo) % step == 0
    ensures v == lo + k * step
  {
    var q := (v - lo) / step;
    assert v - lo == step * q + (v - lo) % step;
    if q < 0 { MultipleIsFar(q, step); }
    k := q;
  }

  lemma AfterSteps(lo: int, step: int, k: nat)
    requires step > 0
    ensures lo <= lo + k * step && (lo + k * step - lo) % step == 0
  {
    DivisionIsUnique(k * step, step, k, 0);
  }

  // ── a field ─────────────────────────────────────────────────────────

  ghost predicate AllWellFormed(parts: seq<Part>) {
    forall i :: 0 <= i < |parts| ==> WellFormed(parts[i])
  }

  function FieldText(parts: seq<Part>): string {
    Join(Texts(parts), ',')
  }

  function Texts(parts: seq<Part>): seq<string> {
    seq(|parts|, i requires 0 <= i < |parts| => PartText(parts[i]))
  }

  lemma SplitOfField(parts: seq<Part>, min: int, max: int)
    requires parts != [] && AllWellFormed(parts)
    ensures Split(FieldText(parts), ',') == Texts(parts)
  {
    forall i | 0 <= i < |parts| ensures ',' !in Texts(parts)[i] { PartReads(parts[i], min, max); }
    SplitJoin(Texts(parts), ',');
  }

  /** MAIN RESULT. A comma list is accepted if and only if every part fits the field by itself, and then it stands for
      exactly what its parts stand for: from the first number up to the last, by the step. */
  lemma FieldStandsFor(parts: seq<Part>, min: int, max: int, v: int)
    requires parts != [] && AllWellFormed(parts)
    ensures FieldOk(FieldText(parts), min, max) <==> forall i :: 0 <= i < |parts| ==> Fits(parts[i], min, max)
    ensures FieldOk(FieldText(parts), min, max) ==>
      (InField(FieldText(parts), min, max, v) <==> exists i :: 0 <= i < |parts| && StandsFor(parts[i], min, max, v))
  {
    var pieces := Split(FieldText(parts), ',');
    SplitOfField(parts, min, max);
    forall i | 0 <= i < |parts|
      ensures ParsePart(pieces[i], min, max).Some? <==> Fits(parts[i], min, max)
      ensures Fits(parts[i], min, max) ==> (PartDenotes(pieces[i], min, max, v) <==> StandsFor(parts[i], min, max, v))
    {
      PartReads(parts[i], min, max);
      if Fits(parts[i], min, max) { DenotesIsStandsFor(parts[i], min, max, v); }
    }
    if PartsOk(pieces, |pieces|, min, max) {
      forall i | 0 <= i < |parts| ensures Fits(parts[i], min, max) { assert ParsePart(pieces[i], min, max).Some?; }
    }
    if InField(FieldText(parts), min, max, v) {
      var i :| 0 <= i < |pieces| && PartDenotes(pieces[i], min, max, v);
      assert PartDenotes(pieces[i], min, max, v);
    }
  }

  lemma {:induction false} JoinOfSplit(s: string, sep: char)
    ensures Join(Split(s, sep), sep) == s
  {
    if s != "" {
      JoinOfSplit(s[1..], sep);
      var rest := Split(s[1..], sep);
      if s[0] == sep {
        assert Split(s, sep) == [""] + rest && Split(s, sep)[1..] == rest;
      } else {
        assert Split(s, sep)[1..] == rest[1..];
      }
    }
  }

  /** MAIN RESULT. There are no other fields: every text that is accepted is such a list. */
  lemma AcceptedIsList(token: string, min: int, max: int) returns (parts: seq<Part>)
    requires FieldOk(token, min, max)
    ensures parts != [] && AllWellFormed(parts) && FieldText(parts) == token
  {
    parts := PartsOf(Split(token, ','), min, max);
    JoinOfSplit(token, ',');
  }

  lemma {:induction false} PartsOf(pieces: seq<string>, min: int, max: int) returns (parts: seq<Part>)
    requires PartsOk(pieces, |pieces|, min, max)
    ensures |parts| == |pieces| && AllWellFormed(parts) && Texts(parts) == pieces
    decreases |pieces|
  {
    if pieces == [] { return []; }
    var first := AcceptedIsPart(pieces[0], min, max);
    assert PartsOk(pieces[1..], |pieces[1..]|, min, max);
    var rest := PartsOf(pieces[1..], min, max);
    parts := [first] + rest;
    TextsOfMore(first, rest);
  }

  lemma TextsOfMore(first: Part, rest: seq<Part>)
    ensures Texts([first] + rest) == [PartText(first)] + Texts(rest)
  {
  }

  // ── numbers ─────────────────────────────────────────────────────────

  lemma SoleField(p: Part, min: int, max: int, v: int)
    requires WellFormed(p)
    ensures FieldOk(PartText(p), min, max) <==> Fits(p, min, max)
    ensures Fits(p, min, max) ==> (InField(PartText(p), min, max, v) <==> StandsFor(p, min, max, v))
  {
    FieldStandsFor([p], min, max, v);
    assert Texts([p]) == [PartText(p)] && FieldText([p]) == PartText(p);
    assert [p][0] == p;
  }

  lemma PlainSteps(p: Part, min: int, max: int, v: int)
    requires WellFormed(p) && p.Plain?
    ensures StandsFor(p, min, max, v) <==> First(p, min) <= v <= Last(p, max)
  {
    if First(p, min) <= v {
      var k: nat := v - First(p, min);
      assert v == First(p, min) + k * Every(p);
    }
  }

  /** "1-5" is accepted exactly when it is a range of the field, and stands for the numbers from 1 to 5. */
  lemma RangeField(a: nat, b: nat, min: int, max: int, v: int)
    ensures FieldOk(Decimal(a) + "-" + Decimal(b), min, max) <==> min <= a <= b <= max
    ensures min <= a <= b <= max ==> (InField(Decimal(a) + "-" + Decimal(b), min, max, v) <==> a <= v <= b)
  {
    NumberOfDecimal(a);
    NumberOfDecimal(b);
    var p := Plain(Span(Decimal(a), Decimal(b)));
    SoleField(p, min, max, v);
    PlainSteps(p, min, max, v);
  }

  /** "1-30/7" */
  lemma SteppedRangeField(a: nat, b: nat, s: nat, min: int, max: int, v: int)
    ensures var text := Decimal(a) + "-" + Decimal(b) + "/" + Decimal(s);
            && (FieldOk(text, min, max) <==> min <= a <= b <= max && s > 0)
            && (FieldOk(text, min, max) ==> (InField(text, min, max, v) <==> v <= b && exists k: nat :: v == a + k * s))
  {
    NumberOfDecimal(a);
    NumberOfDecimal(b);
    NumberOfDecimal(s);
    SoleField(Stepped(Span(Decimal(a), Decimal(b)), Decimal(s)), min, max, v);
  }

  /** "5/7" runs up to the end of the field. */
  lemma SteppedNumberField(a: nat, s: nat, min: int, max: int, v: int)
    ensures var text := Decimal(a) + "/" + Decimal(s);
            && (FieldOk(text, min, max) <==> min <= a <= max && s > 0)
            && (FieldOk(text, min, max) ==> (InField(text, min, max, v) <==> v <= max && exists k: nat :: v == a + k * s))
  {
    NumberOfDecimal(a);
    NumberOfDecimal(s);
    SoleField(Stepped(One(Decimal(a)), Decimal(s)), min, max, v);
  }

  // ── an expression ───────────────────────────────────────────────────

  /** The weekday is in the field, 7 being another name of Sunday. */
  ghost predicate OnWeekday(token: string, day: Day) {
    var w := DayOfWeek(day);
    InField(token, 0, 7, w) || (w == 0 && InField(token, 0, 7, 7))
  }

  /** MAIN RESULT. An expression fires at a minute if and only if its minute, hour and month fields hold there, and a day
      field other than "*" does, either of the two, or both are "*". */
  lemma FiresExactlyWhen(expr: string, p: ParsedCron, t: Minutes)
    requires IsParseOf(p, expr)
    ensures var f, date := Words(expr), CivilDate(DayOf(t));
            Matches(p, t) <==>
              && InField(f[0], 0, 59, MinuteOf(t)) && InField(f[1], 0, 23, HourOf(t)) && InField(f[3], 1, 12, date.month)
              && ((f[2] != "*" && InField(f[2], 1, 31, date.day))
                  || (f[4] != "*" && OnWeekday(f[4], DayOf(t)))
                  || (f[2] == "*" && f[4] == "*"))
  {
    assert DayOfWeek(DayOf(t)) != 7;
  }
}
