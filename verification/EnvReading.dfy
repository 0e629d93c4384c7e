/**
 What the .env parser makes of lines that nobody printed (apps/api/src/modules/applications/application-env.service.ts):
 `export`, white space, quotes and comments, told on the text of the line; and which file decides.
 */
module EnvReading {
  import opened Wrappers
  import opened Text
  import opened EnvFile

  predicate Blank(s: string) {
    forall i :: 0 <= i < |s| ==> IsSpace(s[i]) && !LineTerminator(s[i])
  }

  /** A line: white space, `export` perhaps, the key, "=" and the rest, with white space around the "=". */
  datatype Layout = Layout(lead: string, exported: Option<string>, before: string, after: string)

  predicate Fine(l: Layout) {
    && Blank(l.lead) && Blank(l.before) && Blank(l.after)
    && (l.exported.Some? ==> Blank(l.exported.value) && l.exported.value != "")
  }

  function Word(l: Layout): string {
    if l.exported.Some? then "export" + l.exported.value else ""
  }

  function LineText(l: Layout, key: string, rest: string): string {
    l.lead + (Word(l) + (key + (l.before + ("=" + (l.after + rest)))))
  }

  /** What stands after the white space. */
  predicate Starts(rest: string) {
    rest == "" || !IsSpace(rest[0])
  }

  // ── matching ────────────────────────────────────────────────────────

  lemma {:induction false} TrimBlank(gap: string, rest: string)
    requires Blank(gap) && Starts(rest)
    ensures TrimStart(gap + rest) == rest
    decreases |gap|
  {
    if gap == "" {
      assert gap + rest == rest;
    } else {
      assert (gap + rest)[1..] == gap[1..] + rest;
      TrimBlank(gap[1..], rest);
    }
  }

  lemma {:induction false} KeyEndsAt(key: string, rest: string)
    requires (forall i :: 0 <= i < |key| ==> KeyChar(key[i])) && (rest != "" ==> !KeyChar(rest[0]))
    ensures KeyEnd(key + rest) == |key|
    decreases |key|
  {
    if key == "" {
      assert key + rest == rest;
    } else {
      assert (key + rest)[1..] == key[1..] + rest;
      KeyEndsAt(key[1..], rest);
    }
  }

  lemma AssignmentReads(key: string, before: string, after: string, rest: string)
    requires ValidKey(key) && Blank(before) && Blank(after) && Starts(rest) && OneLine(rest)
    ensures Assignment(key + (before + ("=" + (after + rest)))) == Some((key, rest))
  {
    var tail := before + ("=" + (after + rest));
    var s := key + tail;
    assert tail[0] == if before == "" then '=' else before[0];
    KeyEndsAt(key, tail);
    assert s[..|key|] == key && s[|key|..] == tail;
    TrimBlank(before, "=" + (after + rest));
    assert ("=" + (after + rest))[1..] == after + rest;
    TrimBlank(after, rest);
  }

  /** The key itself may be the word: then there is nothing for `export` to lead to. */
  lemma WordIsKey(key: string, before: string, rest: string)
    requires ValidKey(key) && Blank(before)
    ensures var s := key + (before + ("=" + rest));
            |s| > 6 && s[..6] == "export" && IsSpace(s[6]) ==> Assignment(TrimStart(s[6..])).None?
  {
    var s := key + (before + ("=" + rest));
    var word := "export";
    assert forall i :: 0 <= i < |key| ==> s[i] == key[i] && !IsSpace(s[i]);
    assert forall i :: 0 <= i < 6 ==> !IsSpace(word[i]) && word[i] != '=';
    assert s[|key|] == '=' || IsSpace(s[|key|]);
    if |s| > 6 && s[..6] == word && IsSpace(s[6]) {
      assert forall i :: 0 <= i < 6 ==> s[i] == word[i];
      assert |key| == 6 && s[6..] == before + ("=" + rest);
      TrimBlank(before, "=" + rest);
    }
  }

  lemma WordLeads(gap: string, key: string, tail: string)
    requires Blank(gap) && gap != "" && ValidKey(key)
    ensures var s := "export" + gap + (key + tail);
            |s| > 6 && s[..6] == "export" && IsSpace(s[6]) && TrimStart(s[6..]) == key + tail
  {
    var s := "export" + gap + (key + tail);
    assert s[6] == gap[0] && s[6..] == gap + (key + tail);
    assert (key + tail)[0] == key[0];
    TrimBlank(gap, key + tail);
  }

  lemma LineMatches(l: Layout, key: string, rest: string)
    requires Fine(l) && ValidKey(key) && Starts(rest) && OneLine(rest)
    ensures MatchLine(LineText(l, key, rest)) == Some((key, rest))
  {
    var tail := l.before + ("=" + (l.after + rest));
    var body := Word(l) + (key + tail);
    assert body[0] == if l.exported.Some? then 'e' else key[0];
    TrimBlank(l.lead, body);
    AssignmentReads(key, l.before, l.after, rest);
    if l.exported.Some? {
      WordLeads(l.exported.value, key, tail);
    } else {
      assert body == key + tail;
      WordIsKey(key, l.before, l.after + rest);
    }
  }

  // ── the value ───────────────────────────────────────────────────────

  lemma {:induction false} TrimEndBlank(s: string, trail: string)
    requires Blank(trail) && (s == "" || !IsSpace(s[|s| - 1]))
    ensures TrimEnd(s + trail) == s
    decreases |trail|
  {
    if trail == "" {
      assert s + trail == s;
    } else {
      assert (s + trail)[..|s + trail| - 1] == s + trail[..|trail| - 1];
      TrimEndBlank(s, trail[..|trail| - 1]);
    }
  }

  lemma QuotedReads(q: char, body: string, trail: string)
    requires Quote(q) && Blank(trail)
    ensures ReadValue([q] + body + [q] + trail) == Unescape(body)
  {
    var quoted := [q] + body + [q];
    var value := quoted + trail;
    assert !IsSpace(q) && value[0] == q && TrimStart(value) == value;
    TrimEndBlank(quoted, trail);
    assert quoted[1..|quoted| - 1] == body;
  }

  lemma {:induction false} CommentIsCut(v: string, c: string)
    requires !HasComment(v) && (v == "" || v[|v| - 1] != ' ')
    ensures BeforeComment(v + (" #" + c)) == v && HasComment(v + (" #" + c))
    decreases |v|
  {
    var s := v + (" #" + c);
    assert s[|v|] == ' ' && s[|v| + 1] == '#';
    if v == "" {
      assert s == " #" + c;
    } else {
      assert s[1..] == v[1..] + (" #" + c);
      CommentUnfolds(v);
      CommentIsCut(v[1..], c);
      assert [v[0]] + v[1..] == v;
    }
  }

  lemma CommentedReads(v: string, c: string)
    requires v != "" && !IsSpace(v[0]) && !IsSpace(v[|v| - 1]) && !Quote(v[0]) && !HasComment(v)
    ensures ReadValue(v + (" #" + c)) == Unescape(v)
  {
    var value, val := v + (" #" + c), v + (" #" + TrimEnd(c));
    CommentedIsUnquoted(v, c);
    CommentIsCut(v, TrimEnd(c));
    TrimEndOfTrimmed(v);
    assert value[0] == v[0];
    assert Uncommented(value, val) == v;
  }

  lemma CommentedIsUnquoted(v: string, c: string)
    requires v != "" && !IsSpace(v[0]) && !Quote(v[0])
    ensures Unquoted(v + (" #" + c)) == v + (" #" + TrimEnd(c))
  {
    CommentedIsTrimmed(v, c);
    StartsPlainly(v, " #" + c);
    StartsPlainly(v, " #" + TrimEnd(c));
  }

  lemma CommentedIsTrimmed(v: string, c: string)
    ensures TrimEnd(v + (" #" + c)) == v + (" #" + TrimEnd(c))
  {
    TrimEndKeeps(v + " #", c);
    assert v + " #" + c == v + (" #" + c) && v + " #" + TrimEnd(c) == v + (" #" + TrimEnd(c));
  }

  lemma StartsPlainly(v: string, rest: string)
    requires v != "" && !IsSpace(v[0]) && !Quote(v[0])
    ensures TrimStart(v + rest) == v + rest && StripQuotes(v + rest) == v + rest
  {
    assert (v + rest)[0] == v[0];
  }

  lemma TrimEndOfTrimmed(v: string)
    requires v != "" && !IsSpace(v[|v| - 1])
    ensures TrimEnd(v) == v
  {
  }

  lemma {:induction false} TrimEndKeeps(s: string, c: string)
    requires s != "" && !IsSpace(s[|s| - 1])
    ensures TrimEnd(s + c) == s + TrimEnd(c)
    decreases |c|
  {
    if c == "" {
      assert s + c == s;
    } else if IsSpace(c[|c| - 1]) {
      assert (s + c)[..|s + c| - 1] == s + c[..|c| - 1];
      TrimEndKeeps(s, c[..|c| - 1]);
    }
  }

  lemma PlainReads(v: string, trail: string)
    requires v != "" && !IsSpace(v[0]) && !IsSpace(v[|v| - 1]) && !Quote(v[0]) && !HasComment(v) && Blank(trail)
    ensures ReadValue(v + trail) == Unescape(v)
  {
    assert (v + trail)[0] == v[0] && TrimStart(v + trail) == v + trail;
    TrimEndBlank(v, trail);
  }

  lemma {:induction false} UnescapePlain(v: string)
    requires !HasLiteralEscape(v)
    ensures Unescape(v) == v
    decreases |v|
  {
    if v != "" {
      LiteralUnfolds(v);
      UnescapePlain(v[1..]);
      assert [v[0]] + v[1..] == v;
    }
  }

  // ── whole lines ─────────────────────────────────────────────────────

  lemma LineReads(l: Layout, key: string, rest: string)
    requires Fine(l) && ValidKey(key) && Starts(rest) && OneLine(rest)
    ensures ReadLine(LineText(l, key, rest)) == Some((key, ReadValue(rest)))
  {
    var line := LineText(l, key, rest);
    LineMatches(l, key, rest);
    EndsWithout(l, key, rest);
    var body := Word(l) + (key + (l.before + ("=" + (l.after + rest))));
    assert line[0] == if l.lead != "" then l.lead[0] else body[0];
    assert body[0] == if l.exported.Some? then 'e' else key[0];
  }

  lemma EndsWithout(l: Layout, key: string, rest: string)
    requires Fine(l) && OneLine(rest)
    ensures var line := LineText(l, key, rest); line != "" && line[|line| - 1] != '\r'
  {
    var line, end := LineText(l, key, rest), "=" + (l.after + rest);
    assert line[|line| - 1] == end[|end| - 1];
    assert end[|end| - 1] == if rest != "" then rest[|rest| - 1] else if l.after != "" then l.after[|l.after| - 1] else '=';
  }

  /** MAIN RESULT. A quoted value is what stands between its quotes, of either kind, comment signs, blanks and the other
      kind of quote included, with backslash-n read as a line break; `export` and white space do not matter. */
  lemma QuotedLineReads(l: Layout, key: string, q: char, body: string, trail: string)
    requires Fine(l) && ValidKey(key) && Quote(q) && OneLine(body) && Blank(trail)
    ensures ReadLine(LineText(l, key, [q] + body + [q] + trail)) == Some((key, Unescape(body)))
    ensures !HasLiteralEscape(body) ==> ReadLine(LineText(l, key, [q] + body + [q] + trail)) == Some((key, body))
  {
    var rest := [q] + body + [q] + trail;
    OneLineConcat([q] + body + [q], trail);
    OneLineConcat([q] + body, [q]);
    OneLineConcat([q], body);
    LineReads(l, key, rest);
    QuotedReads(q, body, trail);
    if !HasLiteralEscape(body) { UnescapePlain(body); }
  }

  /** MAIN RESULT. A value without quotes ends where its comment or its white space begins. */
  lemma PlainLineReads(l: Layout, key: string, v: string, comment: Option<string>, trail: string)
    requires Fine(l) && ValidKey(key) && OneLine(v) && Blank(trail) && (comment.Some? ==> OneLine(comment.value))
    requires v != "" && !IsSpace(v[0]) && !IsSpace(v[|v| - 1]) && !Quote(v[0]) && !HasComment(v) && !HasLiteralEscape(v)
    ensures var rest := if comment.Some? then v + (" #" + comment.value) else v + trail;
            ReadLine(LineText(l, key, rest)) == Some((key, v))
  {
    UnescapePlain(v);
    if comment.Some? {
      OneLineConcat(v, " #" + comment.value);
      OneLineConcat(" #", comment.value);
      LineReads(l, key, v + (" #" + comment.value));
      CommentedReads(v, comment.value);
    } else {
      OneLineConcat(v, trail);
      LineReads(l, key, v + trail);
      PlainReads(v, trail);
    }
  }

  /** A carriage return at the end of a line does not matter; comments and blank lines define nothing. */
  lemma EndsAndComments(line: string, c: string)
    ensures (line == "" || line[|line| - 1] != '\r') ==> ReadLine(line + "\r") == ReadLine(line)
    ensures ReadLine("#" + c).None? && ReadLine("").None?
  {
    assert (line + "\r")[..|line|] == line;
  }

  /** Keys are ASCII letters, digits and underscores, and do not start with a digit; both quotes quote; and four
      characters end a line for the pattern's dot. */
  lemma KeysAndQuotes(k: string, c: char)
    ensures ValidKey(k) <==>
              && k != "" && !('0' <= k[0] <= '9')
              && forall i :: 0 <= i < |k| ==>
                   k[i] == '_' || '0' <= k[i] <= '9' || 'a' <= k[i] <= 'z' || 'A' <= k[i] <= 'Z'
    ensures Quote(c) <==> c in {'"', '\''}
    ensures LineTerminator(c) <==> c in {'\n', '\r', '\U{2028}', '\U{2029}'}
  {
  }

  // ── which file decides ──────────────────────────────────────────────

  /** What one file defines by itself. */
  function Defines(files: map<string, string>, name: string): map<string, string> {
    if name in files then ReadLines(Split(files[name], '\n'), map[]) else map[]
  }

  function Priority(k: nat): string
    requires k < 5
  {
    [".env.example", ".env.local.example", ".env.production", ".env", ".env.local"][k]
  }

  lemma {:induction false} ReadOver(lines: seq<string>, out: map<string, string>, k: string)
    ensures var alone := ReadLines(lines, map[]);
            var all := ReadLines(lines, out);
            if k in alone then k in all && all[k] == alone[k] else (k in all <==> k in out) && (k in out ==> all[k] == out[k])
    decreases |lines|
  {
    if lines != [] {
      var m := ReadLine(lines[0]);
      ReadOver(lines[1..], Assign(out, m), k);
      ReadOver(lines[1..], Assign(map[], m), k);
    }
  }

  lemma FileOver(text: Option<string>, rest: seq<Option<string>>, out: map<string, string>)
    ensures LoadFiles([text] + rest, out) == LoadFiles(rest, if text.Some? then ReadLines(Split(text.value, '\n'), out) else out)
  {
    assert ([text] + rest)[1..] == rest;
  }

  lemma {:induction false} LoadDecides(files: map<string, string>, n: nat, out: map<string, string>, k: string)
    requires n <= 5
    ensures var loaded := LoadFiles(Texts(files, ORDERED)[n..], out);
            && (forall i :: n <= i < 5 && k in Defines(files, Priority(i)) && (forall j :: i < j < 5 ==> k !in Defines(files, Priority(j))) ==>
                  k in loaded && loaded[k] == Defines(files, Priority(i))[k])
            && ((forall i :: n <= i < 5 ==> k !in Defines(files, Priority(i))) ==>
                  (k in loaded <==> k in out) && (k in out ==> loaded[k] == out[k]))
    decreases 5 - n
  {
    var texts := Texts(files, ORDERED);
    if n < 5 {
      assert texts[n..] == [texts[n]] + texts[n + 1..];
      FileOver(texts[n], texts[n + 1..], out);
      var next := if texts[n].Some? then ReadLines(Split(texts[n].value, '\n'), out) else out;
      if texts[n].Some? { ReadOver(Split(texts[n].value, '\n'), out, k); }
      LoadDecides(files, n + 1, next, k);
      assert ORDERED[n] == Priority(n);
    } else {
      assert texts[n..] == [];
    }
  }

  /** MAIN RESULT. A variable has the value that the file of the highest priority among those that define it gives it:
      .env.local before .env before .env.production before .env.local.example before .env.example; other files and
      the order within the disk do not count. */
  lemma HighestPriorityDecides(files: map<string, string>, k: string, i: nat)
    requires i < 5 && k in Defines(files, Priority(i)) && forall j :: i < j < 5 ==> k !in Defines(files, Priority(j))
    ensures var loaded := LoadFiles(Texts(files, ORDERED), map[]); k in loaded && loaded[k] == Defines(files, Priority(i))[k]
  {
    LoadDecides(files, 0, map[], k);
    assert Texts(files, ORDERED)[0..] == Texts(files, ORDERED);
  }

  /** And no file, no variable. */
  lemma NothingElseIsDefined(files: map<string, string>, k: string)
    requires forall i :: 0 <= i < 5 ==> k !in Defines(files, Priority(i))
    ensures k !in LoadFiles(Texts(files, ORDERED), map[])
  {
    LoadDecides(files, 0, map[], k);
    assert Texts(files, ORDERED)[0..] == Texts(files, ORDERED);
  }
}
