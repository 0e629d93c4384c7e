/**
 The .env printer and parser (apps/api/src/modules/applications/application-env.service.ts):
 which maps survive being written by serializeEnv and read by loadRepoEnvFiles.
 */
module EnvFile {
  import opened Wrappers
  import opened Text

  // ── the printer ─────────────────────────────────────────────────────

  predicate KeyStart(c: char) {
    'A' <= c <= 'Z' || 'a' <= c <= 'z' || c == '_'
  }

  predicate KeyChar(c: char) {
    KeyStart(c) || '0' <= c <= '9'
  }

  predicate ValidKey(k: string) {
    k != "" && KeyStart(k[0]) && forall i :: 0 <= i < |k| ==> KeyChar(k[i])
  }

  function Escaped(c: char): string {
    if c == '\n' then "\\n" else [c]
  }

  /** v.replace(/\n/g, '\\n') */
  function Escape(v: string): string {
    if v == "" then "" else Escaped(v[0]) + Escape(v[1..])
  }

  type Env = seq<(string, string)>

  function Lines(env: Env): seq<string> {
    if env == [] then []
    else if ValidKey(env[0].0) then [LineOf(env[0].0, env[0].1)] + Lines(env[1..])
    else Lines(env[1..])
  }

  function LineOf(k: string, v: string): string {
    k + "=" + Escape(v)
  }

  function SerializeEnv(env: Env): string {
    Join(Lines(env), '\n')
  }

  // ── the parser ──────────────────────────────────────────────────────

  function TrimStart(s: string): string {
    if s != "" && IsSpace(s[0]) then TrimStart(s[1..]) else s
  }

  function TrimEnd(s: string): string {
    if s != "" && IsSpace(s[|s| - 1]) then TrimEnd(s[..|s| - 1]) else s
  }

  /** What `.` does not match. */
  predicate LineTerminator(c: char) {
    c == '\n' || c == '\r' || c == '\U{2028}' || c == '\U{2029}'
  }

  predicate OneLine(s: string) {
    forall i :: 0 <= i < |s| ==> !LineTerminator(s[i])
  }

  function KeyEnd(s: string): (n: nat)
    ensures n <= |s|
  {
    if s != "" && KeyChar(s[0]) then 1 + KeyEnd(s[1..]) else 0
  }

  /** ([A-Za-z_][A-Za-z0-9_]*)\s*=\s*(.*)$ at the start of `s`. */
  function Assignment(s: string): Option<(string, string)> {
    if s == "" || !KeyStart(s[0]) then None
    else
      var after := TrimStart(s[KeyEnd(s)..]);
      if after == "" || after[0] != '=' then None
      else
        var value := TrimStart(after[1..]);
        if OneLine(value) then Some((s[..KeyEnd(s)], value)) else None
  }

  /** The whole pattern: white space, then `export` if that leads anywhere. */
  function MatchLine(line: string): Option<(string, string)> {
    var s := TrimStart(line);
    if |s| > 6 && s[..6] == "export" && IsSpace(s[6]) && Assignment(TrimStart(s[6..])).Some?
    then Assignment(TrimStart(s[6..]))
    else Assignment(s)
  }

  predicate Quote(c: char) {
    c == '"' || c == '\''
  }

  /** Surrounding quotes go; a lone quote is both ends of itself and goes too. */
  function StripQuotes(s: string): string {
    if s != "" && Quote(s[0]) && s[|s| - 1] == s[0] then (if |s| == 1 then "" else s[1..|s| - 1]) else s
  }

  predicate HasComment(s: string) {
    exists i :: 0 <= i < |s| - 1 && s[i] == ' ' && s[i + 1] == '#'
  }

  /** s.slice(0, s.indexOf(' #')), all of it when there is none. */
  function BeforeComment(s: string): string {
    if s == "" then ""
    else if |s| > 1 && s[0] == ' ' && s[1] == '#' then ""
    else [s[0]] + BeforeComment(s[1..])
  }

  /** v.replace(/\\n/g, '\n') */
  function Unescape(s: string): string
    decreases |s|
  {
    if s == "" then ""
    else if |s| > 1 && s[0] == '\\' && s[1] == 'n' then "\n" + Unescape(s[2..])
    else [s[0]] + Unescape(s[1..])
  }

  function Unquoted(matched: string): string {
    StripQuotes(TrimEnd(TrimStart(matched)))
  }

  /** Inline comments end a value unless the matched text starts with a quote. */
  function Uncommented(matched: string, val: string): string {
    if !(matched != "" && Quote(matched[0])) && HasComment(val) then TrimEnd(BeforeComment(val)) else val
  }

  function ReadValue(matched: string): string {
    Unescape(Uncommented(matched, Unquoted(matched)))
  }

  /** raw.replace(/\r$/, '') */
  function DropReturn(s: string): string {
    if s != "" && s[|s| - 1] == '\r' then s[..|s| - 1] else s
  }

  function ReadLine(raw: string): Option<(string, string)> {
    var line := DropReturn(raw);
    if line == "" || line[0] == '#' then None
    else match MatchLine(line)
      case None => None
      case Some(m) => Some((m.0, ReadValue(m.1)))
  }

  /** The one name an assignment to a plain object does not store: its setter ignores a string. */
  const PROTO := "__proto__"

  /** out[m[1]] = val, on a plain JavaScript object. */
  function Assign(out: map<string, string>, m: Option<(string, string)>): map<string, string> {
    if m.Some? && m.value.0 != PROTO then out[m.value.0 := m.value.1] else out
  }

  function ReadLines(lines: seq<string>, out: map<string, string>): map<string, string>
    decreases |lines|
  {
    if lines == [] then out else ReadLines(lines[1..], Assign(out, ReadLine(lines[0])))
  }

  /** The files in their order of priority; None is a file that is absent or cannot be read. */
  function LoadFiles(texts: seq<Option<string>>, out: map<string, string>): map<string, string>
    decreases |texts|
  {
    if texts == [] then out
    else LoadFiles(texts[1..], if texts[0].Some? then ReadLines(Split(texts[0].value, '\n'), out) else out)
  }

  const ORDERED := [".env.example", ".env.local.example", ".env.production", ".env", ".env.local"]

  method LoadRepoEnvFiles(files: map<string, string>) returns (out: map<string, string>)
    ensures out == LoadFiles(Texts(files, ORDERED), map[])
  {
    out := map[];
    ghost var texts := Texts(files, ORDERED);
    assert texts[0..] == texts;
    for k := 0 to |ORDERED|
      invariant LoadFiles(texts[k..], out) == LoadFiles(texts, map[])
    {
      assert texts[k..][1..] == texts[k + 1..];
      if ORDERED[k] in files {
        var lines := Split(files[ORDERED[k]], '\n');
        ghost var goal := ReadLines(lines, out);
        assert lines[0..] == lines;
        for i := 0 to |lines|
          invariant ReadLines(lines[i..], out) == goal
        {
          assert lines[i..][1..] == lines[i + 1..];
          var m := ReadLine(lines[i]);
          if m.Some? && m.value.0 != "__proto__" { out := out[m.value.0 := m.value.1]; }
        }
        assert lines[|lines|..] == [];
      }
    }
  }

  function Texts(files: map<string, string>, names: seq<string>): (texts: seq<Option<string>>)
    ensures |texts| == |names|
  {
    seq(|names|, i requires 0 <= i < |names| => if names[i] in files then Some(files[names[i]]) else None)
  }

  // ── the parser, seen from the value that was written ────────────────

  /** White space that survives the printer: a newline leaves as two ordinary characters. */
  predicate Outer(c: char) {
    IsSpace(c) && c != '\n'
  }

  function DropLeft(v: string): (w: string)
    ensures |w| <= |v| && (|w| == |v| <==> v == "" || !Outer(v[0])) && (|w| == |v| ==> w == v)
  {
    if v != "" && Outer(v[0]) then DropLeft(v[1..]) else v
  }

  function DropRight(v: string): (w: string)
    ensures |w| <= |v| && (|w| == |v| <==> v == "" || !Outer(v[|v| - 1])) && (|w| == |v| ==> w == v)
  {
    if v != "" && Outer(v[|v| - 1]) then DropRight(v[..|v| - 1]) else v
  }

  lemma {:induction false} EscapeConcat(a: string, b: string)
    ensures Escape(a + b) == Escape(a) + Escape(b)
  {
    if a == "" {
      assert a + b == b;
    } else {
      assert (a + b)[1..] == a[1..] + b;
      EscapeConcat(a[1..], b);
    }
  }

  lemma EscapeOne(c: char)
    ensures Escape([c]) == Escaped(c)
  {
    assert [c][1..] == "";
  }

  lemma {:induction false} EscapeEnds(v: string)
    requires v != ""
    ensures Escape(v) == Escape(v[..|v| - 1]) + Escaped(v[|v| - 1])
  {
    if |v| == 1 {
      EscapeOne(v[0]);
      assert v == [v[0]];
    } else {
      var init, tail := v[..|v| - 1], v[1..];
      EscapeEnds(tail);
      assert tail[..|tail| - 1] == init[1..] && init[0] == v[0];
      assert Escape(init) == Escaped(v[0]) + Escape(init[1..]);
    }
  }

  lemma {:induction false} TrimStartEscape(v: string)
    ensures TrimStart(Escape(v)) == Escape(DropLeft(v))
  {
    if v != "" && Outer(v[0]) {
      assert Escape(v)[1..] == Escape(v[1..]);
      TrimStartEscape(v[1..]);
    }
  }

  lemma {:induction false} TrimEndEscape(v: string)
    ensures TrimEnd(Escape(v)) == Escape(DropRight(v))
    decreases |v|
  {
    if v != "" {
      EscapeEnds(v);
      if Outer(v[|v| - 1]) {
        assert Escape(v)[..|Escape(v)| - 1] == Escape(v[..|v| - 1]);
        TrimEndEscape(v[..|v| - 1]);
      }
    }
  }

  lemma StripQuotesEscape(v: string)
    ensures StripQuotes(Escape(v)) == Escape(StripQuotes(v))
  {
    if v != "" {
      EscapeEnds(v);
      EscapeOne(v[0]);
      if |v| > 1 && Quote(v[0]) && v[|v| - 1] == v[0] {
        var inner := v[1..|v| - 1];
        assert v[..|v| - 1] == [v[0]] + inner;
        EscapeConcat([v[0]], inner);
        assert Escape(v) == [v[0]] + Escape(inner) + [v[0]];
      }
    }
  }

  lemma {:induction false} BeforeCommentEscape(v: string)
    ensures BeforeComment(Escape(v)) == Escape(BeforeComment(v))
    ensures HasComment(Escape(v)) <==> HasComment(v)
  {
    if v != "" {
      BeforeCommentEscape(v[1..]);
      var e, rest := Escape(v), Escape(v[1..]);
      assert HasComment(v) <==> (|v| > 1 && v[0] == ' ' && v[1] == '#') || HasComment(v[1..]) by { CommentUnfolds(v); }
      if v[0] == '\n' {
        assert e[1..] == ['n'] + rest && (['n'] + rest)[1..] == rest;
        CommentUnfolds(e);
        CommentUnfolds(['n'] + rest);
      } else {
        assert e[1..] == rest;
        CommentUnfolds(e);
      }
    }
  }

  lemma CommentUnfolds(s: string)
    requires s != ""
    ensures HasComment(s) <==> (|s| > 1 && s[0] == ' ' && s[1] == '#') || HasComment(s[1..])
  {
    if HasComment(s[1..]) {
      var i :| 0 <= i < |s[1..]| - 1 && s[1..][i] == ' ' && s[1..][i + 1] == '#';
      assert s[i + 1] == ' ' && s[i + 2] == '#';
    }
    if HasComment(s) {
      var i :| 0 <= i < |s| - 1 && s[i] == ' ' && s[i + 1] == '#';
      if i > 0 { assert s[1..][i - 1] == ' ' && s[1..][i] == '#'; }
    }
  }

  lemma {:induction false} OneLineEscape(v: string)
    ensures OneLine(Escape(v)) <==> forall i :: 0 <= i < |v| ==> v[i] == '\n' || !LineTerminator(v[i])
  {
    if v != "" {
      OneLineEscape(v[1..]);
      OneLineConcat(Escaped(v[0]), Escape(v[1..]));
      OneLineEscaped(v[0]);
      assert forall i :: 0 < i < |v| ==> v[i] == v[1..][i - 1];
      assert forall i :: 0 <= i < |v[1..]| ==> v[1..][i] == v[i + 1];
    }
  }

  lemma OneLineEscaped(c: char)
    ensures OneLine(Escaped(c)) <==> c == '\n' || !LineTerminator(c)
  {
    if c != '\n' { assert Escaped(c)[0] == c; }
  }

  lemma OneLineConcat(a: string, b: string)
    ensures OneLine(a + b) <==> OneLine(a) && OneLine(b)
  {
    if OneLine(a + b) {
      forall i | 0 <= i < |a| ensures !LineTerminator(a[i]) { assert (a + b)[i] == a[i]; }
      forall i | 0 <= i < |b| ensures !LineTerminator(b[i]) { assert (a + b)[|a| + i] == b[i]; }
    }
  }

  /** A backslash followed by the letter n. */
  predicate HasLiteralEscape(v: string) {
    exists i :: 0 <= i < |v| - 1 && v[i] == '\\' && v[i + 1] == 'n'
  }

  lemma {:induction false} UnescapeEscape(v: string)
    ensures |Unescape(Escape(v))| <= |v|
    ensures Unescape(Escape(v)) == v <==> !HasLiteralEscape(v)
    decreases |v|
  {
    if v != "" {
      var e, rest := Escape(v), Escape(v[1..]);
      LiteralUnfolds(v);
      if v[0] == '\n' {
        UnescapeEscape(v[1..]);
        assert e[2..] == rest;
        assert Unescape(e) == "\n" + Unescape(rest);
        assert v == "\n" + v[1..];
      } else if |v| > 1 && v[0] == '\\' && v[1] == 'n' {
        UnescapeEscape(v[2..]);
        assert v[1..][1..] == v[2..];
        assert e[2..] == Escape(v[2..]);
        assert HasLiteralEscape(v);
      } else {
        UnescapeEscape(v[1..]);
        assert e[1..] == rest;
        assert |rest| > 0 && rest[0] == 'n' ==> v[1] == 'n';
        assert Unescape(e) == [v[0]] + Unescape(rest);
        assert v == [v[0]] + v[1..];
      }
    }
  }

  lemma LiteralUnfolds(s: string)
    requires s != ""
    ensures HasLiteralEscape(s) <==> (|s| > 1 && s[0] == '\\' && s[1] == 'n') || HasLiteralEscape(s[1..])
  {
    if HasLiteralEscape(s[1..]) {
      var i :| 0 <= i < |s[1..]| - 1 && s[1..][i] == '\\' && s[1..][i + 1] == 'n';
      assert s[i + 1] == '\\' && s[i + 2] == 'n';
    }
    if HasLiteralEscape(s) {
      var i :| 0 <= i < |s| - 1 && s[i] == '\\' && s[i + 1] == 'n';
      if i > 0 { assert s[1..][i - 1] == '\\' && s[1..][i] == 'n'; }
    }
  }

  // ── one line ────────────────────────────────────────────────────────

  lemma {:induction false} EscapeHasNoNewline(v: string)
    ensures '\n' !in Escape(v)
  {
    if v != "" { EscapeHasNoNewline(v[1..]); }
  }

  lemma {:induction false} LinesHaveNoNewline(env: Env)
    ensures forall i :: 0 <= i < |Lines(env)| ==> '\n' !in Lines(env)[i]
    decreases |env|
  {
    if env != [] {
      LinesHaveNoNewline(env[1..]);
      EscapeHasNoNewline(env[0].1);
    }
  }

  lemma {:induction false} KeyEndIs(k: string, rest: string)
    requires forall i :: 0 <= i < |k| ==> KeyChar(k[i])
    ensures KeyEnd(k + "=" + rest) == |k|
  {
    if k == "" {
      assert k + "=" + rest == "=" + rest;
    } else {
      assert (k + "=" + rest)[1..] == k[1..] + "=" + rest;
      KeyEndIs(k[1..], rest);
    }
  }

  lemma AssignmentOf(k: string, rest: string)
    requires ValidKey(k)
    ensures Assignment(k + "=" + rest) == if OneLine(TrimStart(rest)) then Some((k, TrimStart(rest))) else None
  {
    var s := k + "=" + rest;
    KeyEndIs(k, rest);
    assert s[|k|..] == "=" + rest && s[..|k|] == k;
    assert ("=" + rest)[1..] == rest;
    assert !IsSpace('=');
  }

  /** A key is never taken for the word `export`, not even when that is what it is. */
  lemma KeyIsNotExport(k: string, rest: string)
    requires ValidKey(k)
    ensures var s := k + "=" + rest; |s| > 6 && s[..6] == "export" ==> !IsSpace(s[6])
  {
    var s := k + "=" + rest;
    if |s| > 6 && s[..6] == "export" {
      assert forall j :: 0 <= j < 6 ==> s[j] == s[..6][j] && s[j] != '=';
      assert s[|k|] == '=';
      assert |k| > 6 ==> s[6] == k[6];
    }
  }

  lemma MatchLineOf(k: string, rest: string)
    requires ValidKey(k)
    ensures MatchLine(k + "=" + rest) == if OneLine(TrimStart(rest)) then Some((k, TrimStart(rest))) else None
  {
    var s := k + "=" + rest;
    assert s[0] == k[0] && TrimStart(s) == s;
    KeyIsNotExport(k, rest);
    MatchesPlainly(s);
    AssignmentOf(k, rest);
  }

  lemma MatchesPlainly(s: string)
    requires TrimStart(s) == s && (|s| > 6 && s[..6] == "export" ==> !IsSpace(s[6]))
    ensures MatchLine(s) == Assignment(s)
  {
  }

  lemma DropReturnEscape(v: string)
    ensures DropReturn(Escape(v)) == Escape(DropReturn(v))
  {
    if v != "" { EscapeEnds(v); }
  }

  /** What a value becomes, told on the value itself: the line, then the quotes and the comment. */
  function Shown(v: string): string {
    DropLeft(DropReturn(v))
  }

  function Cut(shown: string, val: string): string {
    if !(shown != "" && Quote(shown[0])) && HasComment(val) then DropRight(BeforeComment(val)) else val
  }

  function Bare(shown: string): string {
    Cut(shown, StripQuotes(DropRight(shown)))
  }

  lemma DropLeftIsDone(v: string)
    ensures DropLeft(DropLeft(v)) == DropLeft(v)
  {
    if v != "" && Outer(v[0]) { DropLeftIsDone(v[1..]); }
  }

  lemma UnquotedEscape(shown: string)
    requires DropLeft(shown) == shown
    ensures Unquoted(Escape(shown)) == Escape(StripQuotes(DropRight(shown)))
  {
    TrimStartEscape(shown);
    TrimEndEscape(shown);
    StripQuotesEscape(DropRight(shown));
  }

  lemma UncommentedEscape(shown: string, val: string)
    ensures Uncommented(Escape(shown), Escape(val)) == Escape(Cut(shown, val))
  {
    BeforeCommentEscape(val);
    TrimEndEscape(BeforeComment(val));
    if shown != "" { assert Quote(Escape(shown)[0]) <==> Quote(shown[0]); }
  }

  lemma ReadValueEscape(v: string)
    ensures ReadValue(Escape(DropLeft(v))) == Unescape(Escape(Bare(DropLeft(v))))
  {
    var shown := DropLeft(v);
    DropLeftIsDone(v);
    UnquotedEscape(shown);
    UncommentedEscape(shown, StripQuotes(DropRight(shown)));
  }

  lemma DropReturnOfLine(k: string, e: string)
    ensures DropReturn(k + "=" + e) == k + "=" + DropReturn(e)
  {
    var raw := k + "=" + e;
    assert raw[|raw| - 1] == if e == "" then '=' else e[|e| - 1];
    assert e != "" ==> raw[..|raw| - 1] == k + "=" + e[..|e| - 1];
  }

  lemma ReadLineVia(k: string, e: string)
    requires ValidKey(k)
    ensures var shown := TrimStart(DropReturn(e));
            ReadLine(k + "=" + e) == if OneLine(shown) then Some((k, ReadValue(shown))) else None
  {
    DropReturnOfLine(k, e);
    MatchLineOf(k, DropReturn(e));
    var line := k + "=" + DropReturn(e);
    assert line != "" && line[0] == k[0] && KeyChar(k[0]);
  }

  /** A printed line yields its own key or nothing. */
  lemma ReadLineOf(k: string, v: string)
    requires ValidKey(k)
    ensures ReadLine(LineOf(k, v)) ==
              if OneLine(Escape(Shown(v))) then Some((k, Unescape(Escape(Bare(Shown(v)))))) else None
  {
    ReadLineVia(k, Escape(v));
    DropReturnEscape(v);
    TrimStartEscape(DropReturn(v));
    ReadValueEscape(DropReturn(v));
  }

  // ── which values survive ────────────────────────────────────────────

  /** No carriage return or Unicode line break, no outer white space (newlines aside), not in
      quotes, no ` #` unless it starts with a quote, no backslash-n spelled out. */
  ghost predicate Kept(v: string) {
    && (forall i :: 0 <= i < |v| ==> v[i] == '\n' || !LineTerminator(v[i]))
    && (v != "" ==> !Outer(v[0]) && !Outer(v[|v| - 1]))
    && !Quoted(v) && !Commented(v) && !HasLiteralEscape(v)
  }

  lemma {:induction false} BeforeCommentCuts(s: string)
    ensures |BeforeComment(s)| <= |s| && (|BeforeComment(s)| == |s| <==> !HasComment(s))
    ensures !HasComment(s) ==> BeforeComment(s) == s
  {
    if s != "" {
      BeforeCommentCuts(s[1..]);
      CommentUnfolds(s);
      assert s == [s[0]] + s[1..];
    }
  }

  predicate Quoted(s: string) {
    s != "" && Quote(s[0]) && s[|s| - 1] == s[0]
  }

  predicate Commented(s: string) {
    s != "" && !Quote(s[0]) && HasComment(s)
  }

  lemma QuotesCut(s: string)
    ensures |StripQuotes(s)| <= |s| && (|StripQuotes(s)| == |s| <==> !Quoted(s))
    ensures !Quoted(s) ==> StripQuotes(s) == s
  {
  }

  lemma CommentCut(shown: string, val: string)
    requires |val| <= |shown|
    ensures |Cut(shown, val)| <= |val| && (|Cut(shown, val)| == |val| ==> Cut(shown, val) == val)
    ensures shown == val ==> (|Cut(shown, val)| == |val| <==> !Commented(val))
  {
    BeforeCommentCuts(val);
  }

  lemma BareCuts(shown: string)
    ensures |Bare(shown)| <= |shown| && (|Bare(shown)| == |shown| ==> Bare(shown) == shown)
    ensures |Bare(shown)| == |shown| <==>
      (shown != "" ==> !Outer(shown[|shown| - 1])) && !Quoted(shown) && !Commented(shown)
  {
    var right := DropRight(shown);
    var val := StripQuotes(right);
    QuotesCut(right);
    CommentCut(shown, val);
    assert |Bare(shown)| <= |val| <= |right| <= |shown|;
  }

  lemma ShownCuts(v: string)
    ensures |Shown(v)| <= |v| && (|Shown(v)| == |v| ==> Shown(v) == v)
    ensures Shown(v) == v <==> v == "" || (v[|v| - 1] != '\r' && !Outer(v[0]))
  {
  }

  /** What is read is never longer than what was written; it is the same when nothing was cut
      and nothing unescaped that had not been escaped. */
  lemma ReadsBackWhen(v: string)
    ensures Unescape(Escape(Bare(Shown(v)))) == v <==> Shown(v) == v && Bare(v) == v && !HasLiteralEscape(v)
  {
    var shown := Shown(v);
    var bare := Bare(shown);
    ShownCuts(v);
    BareCuts(shown);
    UnescapeEscape(bare);
    assert |Unescape(Escape(bare))| <= |bare| <= |shown| <= |v|;
  }

  lemma KeptMeans(v: string)
    ensures Kept(v) <==> OneLine(Escape(Shown(v))) && Shown(v) == v && Bare(v) == v && !HasLiteralEscape(v)
  {
    ShownCuts(v);
    BareCuts(v);
    OneLineEscape(v);
  }

  /** MAIN RESULT. Written and read back, a value is itself exactly when it is `Kept`. */
  lemma ValueSurvivesExactlyWhen(k: string, v: string)
    requires ValidKey(k)
    ensures ReadLine(LineOf(k, v)) == Some((k, v)) <==> Kept(v)
  {
    ReadLineOf(k, v);
    ReadsBackWhen(v);
    KeptMeans(v);
  }

  // ── one file ────────────────────────────────────────────────────────

  predicate DistinctKeys(env: Env) {
    forall i, j :: 0 <= i < j < |env| ==> env[i].0 != env[j].0
  }

  function ValidPart(env: Env): map<string, string>
    requires DistinctKeys(env)
    decreases |env|
  {
    if env == [] then map[]
    else
      var rest := ValidPart(env[1..]);
      if ValidKey(env[0].0) then rest[env[0].0 := env[0].1] else rest
  }

  /** Reading the printed lines one at a time, later entries over earlier ones. */
  function ReadBack(env: Env, out: map<string, string>): map<string, string>
    decreases |env|
  {
    if env == [] then out
    else
      var m := if ValidKey(env[0].0) then ReadLine(LineOf(env[0].0, env[0].1)) else None;
      ReadBack(env[1..], Assign(out, m))
  }

  lemma {:induction false} LinesReadBack(env: Env, out: map<string, string>)
    ensures ReadLines(Lines(env), out) == ReadBack(env, out)
    decreases |env|
  {
    if env != [] {
      if ValidKey(env[0].0) {
        var m := ReadLine(LineOf(env[0].0, env[0].1));
        assert Lines(env)[0] == LineOf(env[0].0, env[0].1) && Lines(env)[1..] == Lines(env[1..]);
        LinesReadBack(env[1..], Assign(out, m));
      } else {
        LinesReadBack(env[1..], out);
      }
    }
  }

  lemma FileReadsBack(env: Env)
    ensures LoadFiles([Some(SerializeEnv(env))], map[]) == ReadBack(env, map[])
  {
    var lines := Lines(env);
    LinesReadBack(env, map[]);
    LinesHaveNoNewline(env);
    var texts := [Some(SerializeEnv(env))];
    assert texts[1..] == [];
    if lines == [] {
      assert Split("", '\n') == [""] && [""][1..] == [];
      assert ReadLine("").None?;
    } else {
      SplitJoin(lines, '\n');
    }
  }

  ghost predicate KeyOf(env: Env, k: string) {
    exists i :: 0 <= i < |env| && env[i].0 == k && ValidKey(k)
  }

  lemma {:induction false} ReadBackKeys(env: Env, out: map<string, string>, k: string)
    ensures !KeyOf(env, k) ==> (k in ReadBack(env, out) <==> k in out)
    ensures !KeyOf(env, k) && k in out ==> ReadBack(env, out)[k] == out[k]
    decreases |env|
  {
    if env != [] {
      var m := if ValidKey(env[0].0) then ReadLine(LineOf(env[0].0, env[0].1)) else None;
      if ValidKey(env[0].0) { ReadLineOf(env[0].0, env[0].1); }
      assert KeyOf(env[1..], k) ==> KeyOf(env, k) by {
        if KeyOf(env[1..], k) {
          var i :| 0 <= i < |env[1..]| && env[1..][i].0 == k && ValidKey(k);
          assert env[i + 1].0 == k;
        }
      }
      assert ValidKey(env[0].0) && env[0].0 == k ==> KeyOf(env, k);
      ReadBackKeys(env[1..], Assign(out, m), k);
    }
  }

  lemma {:induction false} ReadBackValue(env: Env, out: map<string, string>, i: nat)
    requires DistinctKeys(env) && i < |env| && ValidKey(env[i].0) && env[i].0 !in out
    ensures var back := ReadBack(env, out);
            env[i].0 in back && back[env[i].0] == env[i].1 <==> env[i].0 != PROTO && Kept(env[i].1)
    decreases |env|
  {
    var (k, v) := env[0];
    var m := if ValidKey(k) then ReadLine(LineOf(k, v)) else None;
    var next := Assign(out, m);
    if ValidKey(k) { ReadLineOf(k, v); }
    if i == 0 {
      ValueSurvivesExactlyWhen(k, v);
      assert !KeyOf(env[1..], k) by { assert forall j :: 0 <= j < |env[1..]| ==> env[1..][j] == env[j + 1]; }
      ReadBackKeys(env[1..], next, k);
    } else {
      assert env[1..][i - 1] == env[i];
      ReadBackValue(env[1..], next, i - 1);
    }
  }

  lemma {:induction false} ProtoIsNeverStored(env: Env, out: map<string, string>)
    ensures PROTO in ReadBack(env, out) <==> PROTO in out
    decreases |env|
  {
    if env != [] {
      var m := if ValidKey(env[0].0) then ReadLine(LineOf(env[0].0, env[0].1)) else None;
      ProtoIsNeverStored(env[1..], Assign(out, m));
    }
  }

  /** MAIN RESULT. However wild the values, a printed file defines no variable but the valid keys it
      was printed from, and each of them reads back as it was exactly when its value is `Kept`
      and it is not the name a plain object does not store. */
  lemma PrintedFileReadsBack(env: Env, i: nat, k: string)
    requires DistinctKeys(env)
    ensures var back := LoadFiles([Some(SerializeEnv(env))], map[]);
            && (k in back ==> KeyOf(env, k) && k != PROTO)
            && (i < |env| && ValidKey(env[i].0) ==>
                  (env[i].0 in back && back[env[i].0] == env[i].1 <==> env[i].0 != PROTO && Kept(env[i].1)))
  {
    FileReadsBack(env);
    ReadBackKeys(env, map[], k);
    ProtoIsNeverStored(env, map[]);
    if i < |env| && ValidKey(env[i].0) { ReadBackValue(env, map[], i); }
  }

  /** The name is a valid key, and whatever its value the file reads back as nothing, even where any other
      name's value would be kept. */
  lemma ProtoIsLost(v: string)
    ensures ValidKey(PROTO) && (v == "x" ==> Kept(v))
    ensures LoadFiles([Some(SerializeEnv([(PROTO, v)]))], map[]) == map[]
  {
    var env := [(PROTO, v)];
    var back := LoadFiles([Some(SerializeEnv(env))], map[]);
    forall k ensures k !in back {
      PrintedFileReadsBack(env, 0, k);
      assert KeyOf(env, k) ==> k == PROTO;
    }
  }

  lemma {:induction false} ValidPartIs(env: Env, k: string)
    requires DistinctKeys(env)
    ensures k in ValidPart(env) <==> KeyOf(env, k)
    ensures forall i :: 0 <= i < |env| && env[i].0 == k && ValidKey(k) ==> ValidPart(env)[k] == env[i].1
    decreases |env|
  {
    if env != [] {
      ValidPartIs(env[1..], k);
      assert forall j :: 0 <= j < |env[1..]| ==> env[1..][j] == env[j + 1];
      if KeyOf(env, k) {
        var i :| 0 <= i < |env| && env[i].0 == k && ValidKey(k);
        if i > 0 { assert env[1..][i - 1].0 == k; }
      }
      if KeyOf(env[1..], k) {
        var i :| 0 <= i < |env[1..]| && env[1..][i].0 == k && ValidKey(k);
        assert env[i + 1].0 == k;
      }
      forall i | 0 <= i < |env| && env[i].0 == k && ValidKey(k) ensures ValidPart(env)[k] == env[i].1 {
        if i > 0 { assert env[1..][i - 1].0 == k; }
      }
    }
  }

  /** MAIN RESULT. The file reads back as the map restricted to its valid keys exactly when all of their
      values are `Kept` and none of them is `__proto__`. */
  lemma FileRoundTripsExactlyWhen(env: Env)
    requires DistinctKeys(env)
    ensures LoadFiles([Some(SerializeEnv(env))], map[]) == ValidPart(env) <==>
              forall i :: 0 <= i < |env| && ValidKey(env[i].0) ==> env[i].0 != PROTO && Kept(env[i].1)
  {
    var back, part := LoadFiles([Some(SerializeEnv(env))], map[]), ValidPart(env);
    forall i | 0 <= i < |env| && ValidKey(env[i].0)
      ensures env[i].0 in part && part[env[i].0] == env[i].1
      ensures env[i].0 in back && back[env[i].0] == env[i].1 <==> env[i].0 != PROTO && Kept(env[i].1)
    {
      PrintedFileReadsBack(env, i, "");
      ValidPartIs(env, env[i].0);
      assert KeyOf(env, env[i].0);
    }
    forall k ensures k in part <==> KeyOf(env, k) { ValidPartIs(env, k); }
    forall k ensures k in back ==> KeyOf(env, k) { PrintedFileReadsBack(env, 0, k); }
  }

  // ── several files ───────────────────────────────────────────────────

  /** MAIN RESULT. A later file has the last word: what `.env.local` defines is what is read, whatever
      the other four say. */
  lemma {:induction false} LastFileWins(texts: seq<Option<string>>, last: string, out: map<string, string>, k: string)
    requires k in ReadLines(Split(last, '\n'), map[])
    ensures var all := LoadFiles(texts + [Some(last)], out);
            k in all && all[k] == ReadLines(Split(last, '\n'), map[])[k]
    decreases |texts|
  {
    if texts == [] {
      assert (texts + [Some(last)])[1..] == [];
      ReadLinesOver(Split(last, '\n'), out, map[], k);
    } else {
      assert (texts + [Some(last)])[1..] == texts[1..] + [Some(last)];
      LastFileWins(texts[1..], last, if texts[0].Some? then ReadLines(Split(texts[0].value, '\n'), out) else out, k);
    }
  }

  lemma {:induction false} ReadLinesOver(lines: seq<string>, out: map<string, string>, less: map<string, string>, k: string)
    requires k in ReadLines(lines, less) && (k in less ==> k in out && out[k] == less[k])
    ensures k in ReadLines(lines, out) && ReadLines(lines, out)[k] == ReadLines(lines, less)[k]
    decreases |lines|
  {
    if lines != [] {
      var m := ReadLine(lines[0]);
      ReadLinesOver(lines[1..], Assign(out, m), Assign(less, m), k);
    }
  }
}
