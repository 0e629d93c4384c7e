/**
 What the operations of AgentTasks do to the rows, told on the rows and on the run alone
 (apps/api/src/modules/agent/agent.service.ts): how old a task is that a sweep closes, which
 tasks a poll hands out and in what order, what a report changes, and in what order the entries
 of an onComplete list run.
 */
module AgentEffects {
  import opened Wrappers
  import opened AgentTasks

  // ── the age of a row ────────────────────────────────────────────────

  /** The `k`th event enqueued task `t`. */
  ghost predicate EnqueuedBy(clock: Time, events: seq<Event>, k: nat, t: TaskId)
    requires k < |events|
  {
    |Run(Init(clock), events[..k]).tasks| <= t < |Run(Init(clock), events[..k + 1]).tasks|
  }

  lemma StepDates(s: State, e: Event)
    ensures var after := Step(s, e);
            && |s.tasks| <= |after.tasks|
            && (forall t :: 0 <= t < |s.tasks| ==>
                  && after.tasks[t].createdAt == s.tasks[t].createdAt
                  && (Terminal(s.tasks[t].status) ==> Terminal(after.tasks[t].status)))
            && (forall t :: |s.tasks| <= t < |after.tasks| ==> after.tasks[t].createdAt == s.clock)
  {
    if e.RereadStale? && s.sweep.Updated? { OweSweptKeepsRows(s.(sweep := NoSweep), s.sweep.stale); }
  }

  lemma {:induction false} RunDates(s: State, events: seq<Event>)
    ensures var after := Run(s, events);
            && |s.tasks| <= |after.tasks|
            && forall t :: 0 <= t < |s.tasks| ==>
                 && after.tasks[t].createdAt == s.tasks[t].createdAt
                 && (Terminal(s.tasks[t].status) ==> Terminal(after.tasks[t].status))
    decreases |events|
  {
    if events != [] {
      StepDates(s, events[0]);
      RunDates(Step(s, events[0]), events[1..]);
    }
  }

  lemma Prefix(clock: Time, events: seq<Event>, i: nat)
    requires i <= |events|
    ensures Run(Init(clock), events) == Run(Run(Init(clock), events[..i]), events[i..])
    ensures i < |events| ==> Run(Init(clock), events[..i + 1]) == Step(Run(Init(clock), events[..i]), events[i])
  {
    RunSplits(Init(clock), events, i);
    if i < |events| { RunGoesOn(Init(clock), events, i); }
  }

  lemma RunSplits(s: State, events: seq<Event>, i: nat)
    requires i <= |events|
    ensures Run(s, events) == Run(Run(s, events[..i]), events[i..])
  {
    assert events == events[..i] + events[i..];
    RunConcat(s, events[..i], events[i..]);
  }

  lemma RunGoesOn(s: State, events: seq<Event>, i: nat)
    requires i < |events|
    ensures Run(s, events[..i + 1]) == Step(Run(s, events[..i]), events[i])
  {
    assert events[..i + 1] == events[..i] + [events[i]];
    RunOneMore(s, events[..i], events[i]);
  }

  lemma RunOneMore(s: State, events: seq<Event>, e: Event)
    ensures Run(s, events + [e]) == Step(Run(s, events), e)
  {
    RunConcat(s, events, [e]);
    RunOne(Run(s, events), e);
  }

  lemma RunOne(s: State, e: Event)
    ensures Run(s, [e]) == Step(s, e)
  {
    assert [e][1..] == [];
    var after := Step(s, e);
    assert Run(after, []) == after;
  }

  /** A row carries the clock of the event that enqueued it. */
  lemma RowsAreDated(clock: Time, events: seq<Event>, k: nat, t: TaskId)
    requires k < |events| && EnqueuedBy(clock, events, k, t)
    ensures var s := Run(Init(clock), events);
            t < |s.tasks| && s.tasks[t].createdAt == Run(Init(clock), events[..k]).clock
  {
    Prefix(clock, events, k);
    Prefix(clock, events, k + 1);
    StepDates(Run(Init(clock), events[..k]), events[k]);
    RunDates(Run(Init(clock), events[..k + 1]), events[k + 1..]);
  }

  lemma {:induction false} EveryRowWasEnqueued(clock: Time, events: seq<Event>, t: TaskId)
    requires t < |Run(Init(clock), events).tasks|
    ensures exists k :: 0 <= k < |events| && EnqueuedBy(clock, events, k, t)
    decreases |events|
  {
    var last := |events| - 1;
    assert events[..last + 1] == events;
    if t >= |Run(Init(clock), events[..last]).tasks| {
      assert EnqueuedBy(clock, events, last, t);
    } else {
      EveryRowWasEnqueued(clock, events[..last], t);
      var k :| 0 <= k < last && EnqueuedBy(clock, events[..last], k, t);
      assert events[..last][..k] == events[..k] && events[..last][..k + 1] == events[..k + 1];
      assert EnqueuedBy(clock, events, k, t);
    }
  }

  // ── the sweep ───────────────────────────────────────────────────────

  /** The `i`th event is the selection of the sweep that is about to update. */
  ghost predicate SelectedAt(clock: Time, events: seq<Event>, i: nat)
    requires i < |events|
  {
    && events[i].SelectStale? && UpdateStale !in events[i + 1..]
    && Run(Init(clock), events[..i]).sweep.NoSweep? && Run(Init(clock), events[..i + 1]).sweep.Selected?
  }

  lemma StepSelects(s: State, e: Event)
    ensures var after := Step(s, e);
            && (s.sweep.Selected? && !e.UpdateStale? ==> after.sweep == s.sweep)
            && (e.UpdateStale? ==> !after.sweep.Selected?)
            && (!s.sweep.Selected? && after.sweep.Selected? ==>
                  && s.sweep.NoSweep? && e.SelectStale? && after == s.(sweep := Selected(e.stale))
                  && forall t: TaskId :: t in e.stale <==> t < |s.tasks| && !Terminal(s.tasks[t].status) && s.clock - s.tasks[t].createdAt > 1800000)
  {
    if e.RereadStale? && s.sweep.Updated? { OweSweptKeepsSweep(s.(sweep := NoSweep), s.sweep.stale); }
  }

  lemma {:induction false} SelectionStands(s: State, events: seq<Event>)
    requires s.sweep.Selected? && UpdateStale !in events
    ensures Run(s, events).sweep == s.sweep
    decreases |events|
  {
    if events != [] {
      StepSelects(s, events[0]);
      SelectionStands(Step(s, events[0]), events[1..]);
    }
  }

  lemma {:induction false} SelectionWasMade(clock: Time, events: seq<Event>)
    requires Run(Init(clock), events).sweep.Selected?
    ensures exists i :: 0 <= i < |events| && SelectedAt(clock, events, i)
    decreases |events|
  {
    var last := |events| - 1;
    assert events[..last + 1] == events;
    Prefix(clock, events, last);
    StepSelects(Run(Init(clock), events[..last]), events[last]);
    if Run(Init(clock), events[..last]).sweep.Selected? {
      SelectionWasMade(clock, events[..last]);
      var i :| 0 <= i < last && SelectedAt(clock, events[..last], i);
      assert events[..last][..i] == events[..i] && events[..last][..i + 1] == events[..i + 1];
      assert events[i + 1..] == events[..last][i + 1..] + [events[last]];
      assert SelectedAt(clock, events, i);
    } else {
      assert SelectedAt(clock, events, last);
    }
  }

  /** What the selection found: the open rows created more than thirty minutes before. */
  lemma SelectionIsOfTheOld(clock: Time, events: seq<Event>, i: nat, t: TaskId)
    requires i < |events| && SelectedAt(clock, events, i)
    ensures var early, s := Run(Init(clock), events[..i]), Run(Init(clock), events);
            && s.sweep.Selected?
            && (t in s.sweep.stale <==>
                  t < |early.tasks| && !Terminal(early.tasks[t].status) && early.clock - early.tasks[t].createdAt > 1800000)
  {
    var early := Run(Init(clock), events[..i]);
    Prefix(clock, events, i);
    Prefix(clock, events, i + 1);
    StepSelects(early, events[i]);
    SelectionStands(Run(Init(clock), events[..i + 1]), events[i + 1..]);
  }

  /** What the guarded update does to the rows. */
  lemma UpdateCloses(s: State, t: TaskId)
    requires s.sweep.Selected? && t < |s.tasks|
    ensures var after := Step(s, UpdateStale);
            && |after.tasks| == |s.tasks|
            && after.tasks[t] == if t in s.sweep.stale && !Terminal(s.tasks[t].status)
                                 then s.tasks[t].(status := FAILED, error := Some("Task timed out \U{2014} agent disconnected"))
                                 else s.tasks[t]
  {
  }

  /** MAIN RESULT. Over any run: a sweep's update closes an open task if and only if the task was enqueued more than
      1800000 milliseconds before that sweep's selection, by the clock of either event; it is FAILED then with
      the sweep's text, and the others stay as they are. */
  lemma SweepClosesExactlyTheOld(clock: Time, events: seq<Event>, i: nat, k: nat, t: TaskId)
    requires i < |events| && SelectedAt(clock, events, i)
    requires k < |events| && EnqueuedBy(clock, events, k, t)
    ensures var s := Run(Init(clock), events);
            var after := Step(s, UpdateStale);
            && t < |s.tasks| && t < |after.tasks|
            && (Terminal(s.tasks[t].status) ==> after.tasks[t] == s.tasks[t])
            && (!Terminal(s.tasks[t].status) ==>
                  if k < i && Run(Init(clock), events[..i]).clock - Run(Init(clock), events[..k]).clock > 1800000
                  then after.tasks[t] == s.tasks[t].(status := FAILED, error := Some("Task timed out \U{2014} agent disconnected"))
                  else after.tasks[t] == s.tasks[t])
  {
    var early, s := Run(Init(clock), events[..i]), Run(Init(clock), events);
    RowsAreDated(clock, events, k, t);
    SelectionIsOfTheOld(clock, events, i, t);
    UpdateCloses(s, t);
    Prefix(clock, events, i);
    RunDates(early, events[i..]);
    if k < i {
      assert events[..i][..k] == events[..k] && events[..i][..k + 1] == events[..k + 1];
      RowsAreDated(clock, events[..i], k, t);
    } else {
      assert events[..k] == events[..i] + events[i..k];
      RunConcat(Init(clock), events[..i], events[i..k]);
      RunDates(early, events[i..k]);
    }
  }

  /** The two conditions above are met: an update that follows a selection has one, and every row was enqueued. */
  lemma SweepHasSelection(clock: Time, events: seq<Event>, t: TaskId)
    requires Step(Run(Init(clock), events), UpdateStale) != Run(Init(clock), events)
    ensures exists i :: 0 <= i < |events| && SelectedAt(clock, events, i)
    ensures t < |Run(Init(clock), events).tasks| ==> exists k :: 0 <= k < |events| && EnqueuedBy(clock, events, k, t)
  {
    SelectionWasMade(clock, events);
    if t < |Run(Init(clock), events).tasks| { EveryRowWasEnqueued(clock, events, t); }
  }

  /** The old rows below `n`, in order. */
  function Old(s: State, n: nat): seq<TaskId>
    requires n <= |s.tasks|
  {
    if n == 0 then []
    else
      var before := Old(s, n - 1);
      if !Terminal(s.tasks[n - 1].status) && s.clock - s.tasks[n - 1].createdAt > 1800000 then before + [n - 1] else before
  }

  lemma {:induction false} OldAreListed(s: State, n: nat)
    requires n <= |s.tasks|
    ensures Distinct(Old(s, n))
    ensures forall t: TaskId :: t in Old(s, n) <==> t < n && !Terminal(s.tasks[t].status) && s.clock - s.tasks[t].createdAt > 1800000
  {
    if n > 0 { OldAreListed(s, n - 1); }
  }

  /** A sweep can always select: its query has an answer in every state. */
  lemma SweepCanSelect(s: State)
    requires s.sweep.NoSweep?
    ensures Step(s, SelectStale(Old(s, |s.tasks|))) == s.(sweep := Selected(Old(s, |s.tasks|)))
  {
    OldAreListed(s, |s.tasks|);
  }

  // ── polls ───────────────────────────────────────────────────────────

  ghost predicate Waits(s: State, server: ServerId, t: TaskId) {
    t < |s.tasks| && s.tasks[t].status == QUEUED && s.tasks[t].server == server
  }

  /** A poll that hands anything out hands out, once each, up to ten QUEUED tasks of that server, and while
      one is left behind it hands out ten and no task that is younger; they become RUNNING, the others stay as they are. */
  lemma PollServesOldestFirst(s: State, server: ServerId, ids: seq<TaskId>)
    requires Step(s, Poll(server, ids)) != s
    ensures var after := Step(s, Poll(server, ids));
            && after.handed == s.handed + ids && |ids| <= 10
            && (forall i, j :: 0 <= i < j < |ids| ==> ids[i] != ids[j])
            && (forall t :: t in ids ==> Waits(s, server, t))
            && |after.tasks| == |s.tasks|
            && (forall t: TaskId :: t < |s.tasks| ==>
                  after.tasks[t] == if t in ids then s.tasks[t].(status := RUNNING) else s.tasks[t])
            && (forall t: TaskId :: Waits(after, server, t) ==>
                  |ids| == 10 && forall u :: u in ids ==> s.tasks[u].createdAt <= s.tasks[t].createdAt)
  {
  }

  /** The oldest waiting task that is not among `ids`. */
  lemma {:induction false} OldestWaiting(s: State, server: ServerId, ids: seq<TaskId>, n: nat) returns (oldest: Option<TaskId>)
    requires n <= |s.tasks|
    ensures oldest.None? ==> forall t: TaskId :: t < n && Waits(s, server, t) ==> t in ids
    ensures oldest.Some? ==> oldest.value < n && Waits(s, server, oldest.value) && oldest.value !in ids
    ensures oldest.Some? ==> forall t: TaskId :: t < n && Waits(s, server, t) && t !in ids ==>
      s.tasks[oldest.value].createdAt <= s.tasks[t].createdAt
    decreases n
  {
    if n == 0 { return None; }
    oldest := OldestWaiting(s, server, ids, n - 1);
    if Waits(s, server, n - 1) && n - 1 !in ids
       && (oldest.None? || s.tasks[n - 1].createdAt < s.tasks[oldest.value].createdAt) {
      oldest := Some(n - 1);
    }
  }

  /** The first `m` to be handed out. */
  lemma {:induction false} OldestFew(s: State, server: ServerId, m: nat) returns (ids: seq<TaskId>)
    ensures |ids| <= m && Distinct(ids) && forall t :: t in ids ==> Waits(s, server, t)
    ensures forall t: TaskId :: Waits(s, server, t) && t !in ids ==>
      |ids| == m && forall u :: u in ids ==> u < |s.tasks| && s.tasks[u].createdAt <= s.tasks[t].createdAt
    decreases m
  {
    if m == 0 { return []; }
    ids := OldestFew(s, server, m - 1);
    var next := OldestWaiting(s, server, ids, |s.tasks|);
    if next.Some? {
      ids := ids + [next.value];
    }
  }

  /** Whatever the state, there is something for a poll to answer; while tasks wait it is not empty. */
  lemma PollCanServe(s: State, server: ServerId) returns (ids: seq<TaskId>)
    ensures Claims(s, server, ids) && Step(s, Poll(server, ids)).handed == s.handed + ids
    ensures (exists t: TaskId :: Waits(s, server, t)) ==> ids != []
  {
    ids := OldestFew(s, server, 10);
    forall i | 0 <= i < |ids| ensures Waits(s, server, ids[i]) { assert ids[i] in ids; }
    forall t | 0 <= t < |s.tasks| && s.tasks[t].status == QUEUED && s.tasks[t].server == server && t !in ids
      ensures |ids| == BATCH && forall i :: 0 <= i < |ids| ==> s.tasks[ids[i]].createdAt <= s.tasks[t].createdAt
    {
      assert Waits(s, server, t);
    }
  }

  // ── reports ─────────────────────────────────────────────────────────

  /** A report is accepted if and only if the task exists, belongs to the server and is QUEUED or RUNNING. Then
      the row takes its verdict and its error, and the hooks of exactly this task are owed, with its payload and
      that verdict; otherwise nothing changes. */
  lemma ReportChangesItsRow(s: State, t: TaskId, server: ServerId, completed: bool, error: Option<string>)
    ensures var after := Step(s, FullReport(t, server, completed, error));
            var verdict := if completed then COMPLETED else FAILED;
            if t < |s.tasks| && s.tasks[t].server == server && (s.tasks[t].status == QUEUED || s.tasks[t].status == RUNNING)
            then && after.tasks == s.tasks[t := s.tasks[t].(status := verdict, error := error, job := Some(|s.jobs|))]
                 && after.jobs == s.jobs + [Job(t, s.tasks[t].payload, verdict, Chaining, Undecided)]
                 && after == s.(tasks := after.tasks, jobs := after.jobs)
            else after == s
  {
  }

  /** A report split in two: its read changes no row, and its write puts verdict and error on the row whatever the row says by
      then, and owes the hooks. */
  lemma SplitReportWrites(s: State, r: ReportId, t: TaskId, server: ServerId, completed: bool, error: Option<string>)
    requires t < |s.tasks| && s.tasks[t].server == server && (s.tasks[t].status == QUEUED || s.tasks[t].status == RUNNING)
    requires r !in s.reports
    ensures Step(s, ReadReport(r, t, server, completed, error)) == s.(reports := s.reports[r := Report(t, completed, error)])
  {
  }

  lemma SplitReportLands(s: State, r: ReportId)
    requires r in s.reports && s.reports[r].task < |s.tasks|
    ensures var report := s.reports[r];
            var verdict := if report.completed then COMPLETED else FAILED;
            var row := s.tasks[report.task];
            Step(s, WriteReport(r)) ==
              s.(tasks := s.tasks[report.task := row.(status := verdict, error := report.error, job := Some(|s.jobs|))],
                 jobs := s.jobs + [Job(report.task, row.payload, verdict, Chaining, Undecided)],
                 reports := s.reports - {r})
  {
  }

  // ── the hooks of a task ─────────────────────────────────────────────

  /** MAIN RESULT. The hooks of a task that COMPLETED with a well-formed next entry enqueue exactly that entry, on its server and
      of its kind: with the directory of the task as its source when it is an import or a restore that names none, else with
      its own; and with the rest of the list to follow, or its own when nothing is left. Otherwise they enqueue nothing. */
  lemma HooksEnqueueTheNext(s: State, j: JobId, enqueues: bool)
    requires Sound(s) && j < |s.jobs| && s.jobs[j].pc == Chaining
    ensures var job, after := s.jobs[j], Step(s, Hook(j, enqueues));
            if job.outcome == COMPLETED && job.payload.chain != [] && job.payload.chain[0].Entry? && enqueues then
              var next, rest := job.payload.chain[0], job.payload.chain[1..];
              && |after.tasks| == |s.tasks| + 1 && after.tasks[..|s.tasks|] == s.tasks
              && var row := after.tasks[|s.tasks|];
                 && row.server == next.server && row.kind == next.kind && row.status == QUEUED && row.createdAt == s.clock
                 && row.payload.chain == (if rest != [] then rest else next.payload.chain)
                 && row.payload.source ==
                      (if next.payload.source.None? && (next.kind == VOLUME_IMPORT || next.kind == RESTORE) then Some(OfTask(job.task))
                       else next.payload.source)
                 && after.jobs == s.jobs[j := job.(pc := CleaningInput, link := Enqueued)]
            else
              && after.tasks == s.tasks && after.chains == s.chains && |after.jobs| == |s.jobs|
              && after.jobs[j].pc == CleaningInput && after.jobs[j].link != Enqueued
  {
    assert JobOk(s, j) && TaskOk(s, s.jobs[j].task, Unowed(s));
  }

  // ── onComplete lists ────────────────────────────────────────────────

  predicate WellFormed(entries: seq<Entry>) {
    forall i :: 0 <= i < |entries| ==> entries[i].Entry?
  }

  function Heads(entries: seq<Entry>): seq<(ServerId, Kind)>
    requires WellFormed(entries)
  {
    if entries == [] then [] else [(entries[0].server, entries[0].kind)] + Heads(entries[1..])
  }

  /** The bound on what a chain enqueues, for lists that nest nothing: the length of the list. */
  lemma {:induction false} FlatEntries(entries: seq<Entry>)
    requires forall i :: 0 <= i < |entries| && entries[i].Entry? ==> entries[i].payload.chain == []
    ensures Entries(entries) == |entries|
    decreases |entries|
  {
    if entries != [] {
      assert entries[0].Entry? ==> Entries(entries[0].payload.chain) == 0;
      assert Weight(entries[0]) == 1;
      FlatEntries(entries[1..]);
    }
  }

  lemma HeadRuns(e: Entry, rest: seq<Entry>)
    requires e.Entry?
    ensures Plan([e] + rest) == [(e.server, e.kind)] + if rest != [] then Plan(rest) else Plan(e.payload.chain)
  {
    assert ([e] + rest)[1..] == rest;
  }

  lemma MalformedEnds(entries: seq<Entry>)
    requires entries != [] && entries[0].Malformed?
    ensures Plan(entries) == []
  {
  }

  /** MAIN RESULT. The entries of a list run one after the other, and what the earlier ones nest is never run: after the
      well-formed ones comes whatever the rest of the list plans, nothing when it starts with a malformed entry. */
  lemma {:induction false} EntriesRunInOrder(entries: seq<Entry>, rest: seq<Entry>)
    requires WellFormed(entries) && rest != []
    ensures Plan(entries + rest) == Heads(entries) + Plan(rest)
    ensures rest[0].Malformed? ==> Plan(entries + rest) == Heads(entries)
    decreases |entries|
  {
    if rest[0].Malformed? { MalformedEnds(rest); }
    if entries == [] {
      assert entries + rest == rest;
    } else {
      var head, tail := entries[0], entries[1..];
      assert entries + rest == [head] + (tail + rest);
      HeadRuns(head, tail + rest);
      EntriesRunInOrder(tail, rest);
      PutInFront((head.server, head.kind), Heads(tail), Plan(rest));
    }
  }

  lemma PutInFront<T>(x: T, a: seq<T>, b: seq<T>)
    ensures [x] + (a + b) == [x] + a + b
  {
  }

  /** Without a malformed one the chain goes on with the list nested in the last entry. */
  lemma {:induction false} LastEntryGoesOn(entries: seq<Entry>)
    requires entries != [] && WellFormed(entries)
    ensures Plan(entries) == Heads(entries) + Plan(entries[|entries| - 1].payload.chain)
    decreases |entries|
  {
    var head, tail := entries[0], entries[1..];
    assert entries == [head] + tail;
    HeadRuns(head, tail);
    if tail == [] {
      assert Heads(tail) == [];
    } else {
      LastEntryGoesOn(tail);
      PutInFront((head.server, head.kind), Heads(tail), Plan(tail[|tail| - 1].payload.chain));
    }
  }
}
