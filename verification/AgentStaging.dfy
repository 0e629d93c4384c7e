/**
 The staging directories of task chains (apps/api/src/modules/agent/agent.service.ts):
 transfers/<taskId> is filled by a task's upload, consumed by the task its chain
 enqueues next, or by any task whose payload names it, and removed by the termination
 hooks of all of these. Everything is said of one directory, that of task `t`; runs are
 arbitrary but for the condition under which AgentTasks shows that hooks run once.
 */
module AgentStaging {
  import opened Wrappers
  import opened AgentTasks

  // ── who names a directory ───────────────────────────────────────────

  /** No explicit sourceTaskId, however deep, names the directory of `t`. */
  ghost predicate Unnamed(p: Payload, t: TaskId) {
    p.source != Some(OfTask(t)) && UnnamedChain(p, t)
  }

  ghost predicate UnnamedChain(p: Payload, t: TaskId)
    decreases p, 0
  {
    forall i :: 0 <= i < |p.chain| ==> UnnamedEntry(p.chain[i], t)
  }

  ghost predicate UnnamedEntry(e: Entry, t: TaskId)
    decreases e
  {
    e.Entry? ==> e.payload.source != Some(OfTask(t)) && UnnamedChain(e.payload, t)
  }

  ghost predicate Names(e: Event, t: TaskId) {
    e.Enqueue? && !Unnamed(e.payload, t)
  }

  ghost predicate NeverNamed(events: seq<Event>, t: TaskId) {
    forall e :: e in events ==> !Names(e, t)
  }

  // ── who needs a directory ───────────────────────────────────────────

  ghost predicate PcIn(s: State, t: TaskId, pcs: set<Pc>)
    requires t < |s.tasks|
  {
    s.tasks[t].job.Some? && s.tasks[t].job.value < |s.jobs| && s.jobs[s.tasks[t].job.value].pc in pcs
  }

  /** The task has not given up its input yet. */
  ghost predicate Waiting(s: State, t: TaskId)
    requires t < |s.tasks|
  {
    s.tasks[t].job.None? || PcIn(s, t, {Chaining, CleaningInput})
  }

  /** The task has not given up its output yet. */
  ghost predicate Holding(s: State, t: TaskId)
    requires t < |s.tasks|
  {
    s.tasks[t].job.None? || PcIn(s, t, {Chaining, CleaningInput, CleaningOutput})
  }

  /** The task that its chain enqueued after `t`, if any. */
  ghost function Successor(s: State, t: TaskId): (next: Option<TaskId>)
    requires t < |s.tasks|
    ensures next.Some? ==> next.value < |s.tasks|
  {
    var task := s.tasks[t];
    if task.chain < |s.chains| && task.depth + 1 < |s.chains[task.chain]|
       && s.chains[task.chain][task.depth + 1] < |s.tasks|
    then Some(s.chains[task.chain][task.depth + 1]) else None
  }

  /** Who still needs the directory of `t`: its successor if there is one, else itself. */
  ghost predicate Needed(s: State, t: TaskId)
    requires t < |s.tasks|
  {
    match Successor(s, t)
    case Some(u) => Waiting(s, u)
    case None => Holding(s, t)
  }

  /** The next task of the chain does not read what `t` staged. */
  ghost predicate UnfitNext(s: State, t: TaskId)
    requires t < |s.tasks|
  {
    Successor(s, t).Some? && s.tasks[Successor(s, t).value].payload.source != Some(OfTask(t))
  }

  /** An accepted upload of the task. */
  predicate Arrives(s: State, e: Event, t: TaskId) {
    e.Upload? && e.task == t && t < |s.tasks| && s.tasks[t].server == e.server
  }

  /** An upload that comes when nobody needs the directory any more. */
  ghost predicate Late(s: State, e: Event, t: TaskId) {
    Arrives(s, e, t) && !Needed(s, t)
  }

  ghost predicate LateUpload(s: State, events: seq<Event>, t: TaskId)
    decreases |events|
  {
    events != [] && (Late(s, events[0], t) || LateUpload(Step(s, events[0]), events[1..], t))
  }

  // ── the invariant ───────────────────────────────────────────────────

  ghost predicate SourceOk(s: State, u: TaskId, t: TaskId)
    requires u < |s.tasks|
  {
    UnnamedChain(s.tasks[u].payload, t) && (s.tasks[u].depth == 0 ==> Unnamed(s.tasks[u].payload, t))
  }

  ghost predicate SourcesOk(s: State, t: TaskId) {
    forall u :: 0 <= u < |s.tasks| ==> SourceOk(s, u, t)
  }

  ghost predicate StagedOk(s: State, t: TaskId, late: bool)
    requires t < |s.tasks|
  {
    && (late ==> t in s.uploaded && !Needed(s, t))
    && (OfTask(t) in s.dirs <==> late || (t in s.uploaded && (Needed(s, t) || UnfitNext(s, t))))
  }

  ghost predicate Staging(s: State, t: TaskId, late: bool) {
    && (t in s.uploaded || OfTask(t) in s.dirs || late ==> t < |s.tasks|)
    && (t < |s.tasks| ==> StagedOk(s, t, late))
    && SourcesOk(s, t)
  }

  // ── it is kept ──────────────────────────────────────────────────────

  /** Steps that touch no directory and end no wait. */
  lemma StagingFramed(s: State, after: State, t: TaskId, late: bool)
    requires Sound(s) && Staging(s, t, late)
    requires after.dirs == s.dirs && after.uploaded == s.uploaded && after.chains == s.chains && |after.tasks| == |s.tasks|
    requires forall u :: 0 <= u < |s.tasks| ==>
      && after.tasks[u].payload == s.tasks[u].payload
      && after.tasks[u].chain == s.tasks[u].chain && after.tasks[u].depth == s.tasks[u].depth
      && (Waiting(after, u) <==> Waiting(s, u)) && (Holding(after, u) <==> Holding(s, u))
    ensures Staging(after, t, late)
  {
    forall u | 0 <= u < |s.tasks| ensures SourceOk(after, u, t) { assert SourceOk(s, u, t); }
    if t < |s.tasks| { assert Successor(after, t) == Successor(s, t); }
  }

  lemma WriteStages(s: State, u: TaskId, completed: bool, error: Option<string>, t: TaskId, late: bool)
    requires Sound(s) && Staging(s, t, late) && u < |s.tasks| && s.tasks[u].job.None?
    ensures Staging(WriteResult(s, u, completed, error), t, late)
  {
    var after := WriteResult(s, u, completed, error);
    forall v | 0 <= v < |s.tasks|
      ensures (Waiting(after, v) <==> Waiting(s, v)) && (Holding(after, v) <==> Holding(s, v))
    {
      assert TaskOk(s, v, Unowed(s));
    }
    StagingFramed(s, after, t, late);
  }

  lemma {:induction false} OweSweptChains(s: State, stale: seq<TaskId>)
    ensures var after := OweSwept(s, stale);
            && |s.tasks| == |after.tasks| && |s.jobs| <= |after.jobs|
            && (forall j :: |s.jobs| <= j < |after.jobs| ==> after.jobs[j].pc == Chaining)
            && (forall t :: 0 <= t < |s.tasks| ==>
                  || after.tasks[t].job == s.tasks[t].job
                  || (LooksSwept(s, t) && t in stale && after.tasks[t].job.Some? && |s.jobs| <= after.tasks[t].job.value < |after.jobs|))
    decreases |stale|
  {
    if stale != [] {
      var next := if LooksSwept(s, stale[0]) then Owe(s, stale[0]) else s;
      OweSweptChains(next, stale[1..]);
      OweSweptKeepsRows(next, stale[1..]);
    }
  }

  lemma RereadStages(s: State, t: TaskId, late: bool)
    requires Sound(s) && Staging(s, t, late) && s.sweep.Updated? && OwesFresh(s, RereadStale)
    ensures Staging(RereadStep(s), t, late)
  {
    var rest, after := s.(sweep := NoSweep), RereadStep(s);
    OweSweptKeepsRows(rest, s.sweep.stale);
    OweSweptChains(rest, s.sweep.stale);
    forall u | 0 <= u < |s.tasks|
      ensures (Waiting(after, u) <==> Waiting(s, u)) && (Holding(after, u) <==> Holding(s, u))
    {
      assert TaskOk(s, u, Unowed(s)) && (LooksSwept(rest, u) <==> LooksSwept(s, u));
      if s.tasks[u].job.Some? { assert after.jobs[s.tasks[u].job.value] == s.jobs[s.tasks[u].job.value]; }
    }
    StagingFramed(s, after, t, late);
  }

  lemma EnqueueStages(s: State, server: ServerId, kind: Kind, payload: Payload, t: TaskId, late: bool)
    requires Sound(s) && Staging(s, t, late) && Unnamed(payload, t)
    ensures Staging(EnqueueStep(s, server, kind, payload), t, late)
  {
    var after := EnqueueStep(s, server, kind, payload);
    forall u | 0 <= u < |after.tasks| ensures SourceOk(after, u, t) {
      if u < |s.tasks| { assert SourceOk(s, u, t); }
    }
    if t < |s.tasks| {
      assert TaskOk(s, t, Unowed(s)) && LinkOk(s, s.tasks[t].chain, s.tasks[t].depth);
      assert Successor(after, t) == Successor(s, t);
    }
  }

  lemma UploadStages(s: State, e: Event, t: TaskId, late: bool)
    requires Sound(s) && Staging(s, t, late) && e.Upload?
    ensures Staging(Step(s, e), t, late || Late(s, e, t))
  {
    var after := Step(s, e);
    forall u | 0 <= u < |s.tasks| ensures SourceOk(after, u, t) { assert SourceOk(s, u, t); }
    if t < |s.tasks| { assert Successor(after, t) == Successor(s, t); }
  }

  // ── the hooks ───────────────────────────────────────────────────────

  /** The chaining statement that enqueues: the new task takes over its predecessor's output. */
  lemma ChainStages(s: State, j: JobId, t: TaskId, late: bool)
    requires Sound(s) && Staging(s, t, late) && j < |s.jobs| && s.jobs[j].pc == Chaining
    requires s.jobs[j].outcome == COMPLETED && Chains(s.jobs[j].payload)
    requires s.jobs[j].task < |s.tasks| && s.tasks[s.jobs[j].task].chain < |s.chains|
    ensures Staging(ChainStep(s, j, true), t, late)
  {
    var after := ChainStep(s, j, true);
    var u := s.jobs[j].task;
    var task := s.tasks[u];
    assert JobOk(s, j) && TaskOk(s, u, Unowed(s)) && LinkOk(s, task.chain, task.depth);
    forall v | 0 <= v < |after.tasks| ensures SourceOk(after, v, t) {
      if v < |s.tasks| { assert SourceOk(s, v, t); } else { assert SourceOk(s, u, t); RestIsUnnamed(task.payload, t); }
    }
    if t == u {
      assert Successor(s, t).None? && Holding(s, t);
      assert Successor(after, t) == Some(|s.tasks|) && Waiting(after, |s.tasks|);
    } else if t < |s.tasks| {
      SuccessorKept(s, j, t);
    } else {
      assert t == |s.tasks| ==> Successor(after, t).None?;
    }
  }

  lemma SuccessorKept(s: State, j: JobId, u: TaskId)
    requires Sound(s) && j < |s.jobs| && s.jobs[j].pc == Chaining
    requires s.jobs[j].outcome == COMPLETED && Chains(s.jobs[j].payload)
    requires s.jobs[j].task < |s.tasks| && s.tasks[s.jobs[j].task].chain < |s.chains|
    requires u < |s.tasks| && u != s.jobs[j].task
    ensures var after := ChainStep(s, j, true);
            Successor(after, u) == Successor(s, u) && (Needed(after, u) <==> Needed(s, u)) && (UnfitNext(after, u) <==> UnfitNext(s, u))
  {
    var after := ChainStep(s, j, true);
    var t := s.jobs[j].task;
    assert JobOk(s, j) && TaskOk(s, t, Unowed(s)) && TaskOk(s, u, Unowed(s));
    assert LinkOk(s, s.tasks[t].chain, s.tasks[t].depth) && LinkOk(s, s.tasks[u].chain, s.tasks[u].depth);
    if Successor(s, u).Some? {
      var v := Successor(s, u).value;
      assert LinkOk(s, s.tasks[u].chain, s.tasks[u].depth + 1) && TaskOk(s, v, Unowed(s));
    }
  }

  lemma RestIsUnnamed(p: Payload, t: TaskId)
    requires UnnamedChain(p, t) && Chains(p)
    ensures UnnamedChain(Payload(None, Rest(p.chain)), t)
  {
    var rest := Rest(p.chain);
    assert UnnamedEntry(p.chain[0], t);
    forall i | 0 <= i < |rest| ensures UnnamedEntry(rest[i], t) {
      if p.chain[1..] != [] {
        assert rest[i] == p.chain[i + 1] && UnnamedEntry(p.chain[i + 1], t);
      } else {
        assert UnnamedChain(p.chain[0].payload, t) && UnnamedEntry(p.chain[0].payload.chain[i], t);
      }
    }
  }

  /** A hook that only moves on: no directory is touched, no wait ends. */
  lemma SkipStages(s: State, j: JobId, link: Link, t: TaskId, late: bool)
    requires Sound(s) && Staging(s, t, late) && j < |s.jobs| && s.jobs[j].pc == Chaining
    ensures Staging(s.(jobs := s.jobs[j := s.jobs[j].(pc := CleaningInput, link := link)]), t, late)
  {
    StagingFramed(s, s.(jobs := s.jobs[j := s.jobs[j].(pc := CleaningInput, link := link)]), t, late);
  }

  /** A directory that nobody names is read by the successor of its task alone; it is when the successor consumes and names
      no source. */
  lemma SourceIsPredecessor(s: State, u: TaskId, t: TaskId)
    requires Sound(s) && SourcesOk(s, t) && u < |s.tasks| && t < |s.tasks|
    ensures s.tasks[u].payload.source == Some(OfTask(t)) ==> Successor(s, t) == Some(u)
    ensures Successor(s, t) == Some(u) && Fit(s.tasks[t].payload) ==> s.tasks[u].payload.source == Some(OfTask(t))
  {
    assert TaskOk(s, u, Unowed(s)) && SourceOk(s, u, t) && TaskOk(s, t, Unowed(s));
    var c, d := s.tasks[u].chain, s.tasks[u].depth;
    assert LinkOk(s, c, d);
    if d > 0 {
      assert LinkOk(s, c, d - 1);
      var p := s.chains[c][d - 1];
      assert SourceOk(s, p, t) && TaskOk(s, p, Unowed(s));
      assert UnnamedEntry(s.tasks[p].payload.chain[0], t);
      assert Succeeds(s, p, u);
    }
    if Successor(s, t) == Some(u) {
      assert LinkOk(s, s.tasks[t].chain, s.tasks[t].depth) && LinkOk(s, s.tasks[t].chain, s.tasks[t].depth + 1);
    }
  }

  /** Chained to a consumer that takes its input by default, or to nothing. */
  predicate Fit(p: Payload) {
    Chains(p) ==> Consumes(p.chain[0].kind) && p.chain[0].payload.source.None?
  }

  lemma CleanInputStages(s: State, j: JobId, t: TaskId, late: bool)
    requires Sound(s) && Staging(s, t, late) && j < |s.jobs| && s.jobs[j].pc == CleaningInput
    ensures Staging(HookStep(s, j, false), t, late)
  {
    var after := HookStep(s, j, false);
    var u := s.jobs[j].task;
    assert JobOk(s, j) && TaskOk(s, u, Unowed(s));
    forall v | 0 <= v < |s.tasks| ensures SourceOk(after, v, t) && (Waiting(after, v) <==> (Waiting(s, v) && v != u)) {
      assert SourceOk(s, v, t) && TaskOk(s, v, Unowed(s));
    }
    if t < |s.tasks| {
      assert TaskOk(s, t, Unowed(s));
      SourceIsPredecessor(s, u, t);
      assert Successor(after, t) == Successor(s, t);
      assert Holding(after, t) <==> Holding(s, t);
    }
  }

  lemma CleanOutputStages(s: State, j: JobId, t: TaskId, late: bool)
    requires Sound(s) && Staging(s, t, late) && j < |s.jobs| && s.jobs[j].pc == CleaningOutput
    ensures Staging(HookStep(s, j, false), t, late)
  {
    var after := HookStep(s, j, false);
    var u := s.jobs[j].task;
    assert JobOk(s, j) && TaskOk(s, u, Unowed(s)) && LinkOk(s, s.tasks[u].chain, s.tasks[u].depth);
    forall v | 0 <= v < |s.tasks| ensures SourceOk(after, v, t) && (Waiting(after, v) <==> Waiting(s, v)) {
      assert SourceOk(s, v, t) && TaskOk(s, v, Unowed(s));
    }
    if t < |s.tasks| {
      assert TaskOk(s, t, Unowed(s));
      assert Successor(after, t) == Successor(s, t);
      assert t != u ==> (Holding(after, t) <==> Holding(s, t));
    }
  }

  lemma HookStages(s: State, j: JobId, enqueues: bool, t: TaskId, late: bool)
    requires Sound(s) && Staging(s, t, late) && j < |s.jobs|
    ensures Staging(HookStep(s, j, enqueues), t, late)
  {
    var job := s.jobs[j];
    assert JobOk(s, j) && TaskOk(s, job.task, Unowed(s));
    match job.pc
    case Chaining =>
      if job.outcome == COMPLETED && Chains(job.payload) {
        if enqueues { ChainStages(s, j, t, late); } else { SkipStages(s, j, EnqueueFailed, t, late); }
      } else {
        SkipStages(s, j, NothingToEnqueue, t, late);
      }
    case CleaningInput => CleanInputStages(s, j, t, late);
    case CleaningOutput => CleanOutputStages(s, j, t, late);
    case Finished =>
  }

  lemma StepStages(s: State, e: Event, t: TaskId, late: bool)
    requires Sound(s) && Staging(s, t, late) && OwesFresh(s, e) && !Names(e, t)
    ensures Staging(Step(s, e), t, late || Late(s, e, t))
  {
    match e
    case Enqueue(server, kind, payload) => EnqueueStages(s, server, kind, payload, t, late);
    case FullReport(u, server, completed, error) =>
      if Accepts(s, u, server) {
        OpenHasNoJob(s, Unowed(s), u);
        WriteStages(s, u, completed, error, t, late);
      }
    case WriteReport(r) => if r in s.reports && s.reports[r].task < |s.tasks| { WriteReportStages(s, r, t, late); }
    case RereadStale => if s.sweep.Updated? { RereadStages(s, t, late); }
    case Hook(j, enqueues) => if j < |s.jobs| { HookStages(s, j, enqueues, t, late); }
    case Upload(_, _) => UploadStages(s, e, t, late);
    case Poll(server, ids) => if Claims(s, server, ids) { StagingFramed(s, PollStep(s, ids), t, late); }
    case UpdateStale => if s.sweep.Selected? { StagingFramed(s, UpdateStep(s, s.sweep.stale), t, late); }
    case _ => SameStaging(s, Step(s, e), t, late);
  }

  lemma SameStaging(s: State, after: State, t: TaskId, late: bool)
    requires Staging(s, t, late)
    requires after.dirs == s.dirs && after.uploaded == s.uploaded && after.chains == s.chains
    requires after.tasks == s.tasks && after.jobs == s.jobs
    ensures Staging(after, t, late)
  {
    forall u | 0 <= u < |s.tasks| ensures SourceOk(after, u, t) { assert SourceOk(s, u, t); }
    if t < |s.tasks| { assert Successor(after, t) == Successor(s, t); }
  }

  lemma WriteReportStages(s: State, r: ReportId, t: TaskId, late: bool)
    requires Sound(s) && Staging(s, t, late) && r in s.reports && s.reports[r].task < |s.tasks| && OwesFresh(s, WriteReport(r))
    ensures Staging(Step(s, WriteReport(r)), t, late)
  {
    var report := s.reports[r];
    WriteStages(s, report.task, report.completed, report.error, t, late);
    ResultStaysSound(s, report.task, report.completed, report.error);
    StagingFramed(WriteResult(s, report.task, report.completed, report.error), Step(s, WriteReport(r)), t, late);
  }

  lemma {:induction false} RunStages(s: State, events: seq<Event>, t: TaskId, late: bool)
    requires Sound(s) && Staging(s, t, late) && OwesFreshOnly(s, events) && NeverNamed(events, t)
    ensures Sound(Run(s, events)) && Staging(Run(s, events), t, late || LateUpload(s, events, t))
    decreases |events|
  {
    if events != [] {
      StepStaysSound(s, events[0]);
      StepStages(s, events[0], t, late);
      RunStages(Step(s, events[0]), events[1..], t, late || Late(s, events[0], t));
    }
  }

  // ── a directory that nobody names ───────────────────────────────────

  /** MAIN RESULT. In any run in which the hooks run once, whenever uploads come, a directory that no payload names
      exists if and only if an upload came after its clean-up, or it was filled and somebody still needs it or the
      chain went on with a task that does not read it. In particular it is there as long as its consumer is live. */
  lemma StagedExactlyWhen(clock: Time, events: seq<Event>, t: TaskId)
    requires OwesFreshOnly(Init(clock), events) && NeverNamed(events, t) && t < |Run(Init(clock), events).tasks|
    ensures var s := Run(Init(clock), events);
            && (OfTask(t) in s.dirs <==>
                  LateUpload(Init(clock), events, t) || (t in s.uploaded && (Needed(s, t) || UnfitNext(s, t))))
            && (t in s.uploaded && Successor(s, t).Some? && Open(s, Successor(s, t).value) ==> OfTask(t) in s.dirs)
  {
    RunStages(Init(clock), events, t, false);
    var s := Run(Init(clock), events);
    assert TaskOk(s, t, Unowed(s));
    if Successor(s, t).Some? && Open(s, Successor(s, t).value) { OpenHasNoJob(s, Unowed(s), Successor(s, t).value); }
  }

  /** The hooks of the task and of its successor, if it has one, are done. */
  ghost predicate HooksDone(s: State, t: TaskId)
    requires t < |s.tasks|
  {
    PcIn(s, t, {Finished}) && (Successor(s, t).Some? ==> PcIn(s, Successor(s, t).value, {Finished}))
  }

  /** MAIN RESULT. Once the hooks of the chain are done the directory is gone if and only if no upload came after
      the clean-up and the next task, if there was one, reads what an upload staged. */
  lemma GoneExactlyWhen(clock: Time, events: seq<Event>, t: TaskId)
    requires OwesFreshOnly(Init(clock), events) && NeverNamed(events, t)
    requires t < |Run(Init(clock), events).tasks| && HooksDone(Run(Init(clock), events), t)
    ensures var s := Run(Init(clock), events);
            OfTask(t) !in s.dirs <==> !LateUpload(Init(clock), events, t) && !(t in s.uploaded && UnfitNext(s, t))
  {
    StagedExactlyWhen(clock, events, t);
  }

  // ── leaks are for ever ──────────────────────────────────────────────

  lemma UnfitStays(s: State, e: Event, t: TaskId)
    requires Sound(s) && Sound(Step(s, e)) && t < |s.tasks| && UnfitNext(s, t)
    ensures t < |Step(s, e).tasks| && UnfitNext(Step(s, e), t)
  {
    RowsStay(s, e);
    assert TaskOk(s, t, Unowed(s));
  }

  /** No statement changes the payload of a row, its place in a chain, or what a chain has enqueued. */
  lemma RowsStay(s: State, e: Event)
    ensures var after := Step(s, e);
            && |s.tasks| <= |after.tasks| && |s.chains| <= |after.chains| && s.uploaded <= after.uploaded
            && (forall t :: 0 <= t < |s.tasks| ==>
                  && after.tasks[t].payload == s.tasks[t].payload
                  && after.tasks[t].chain == s.tasks[t].chain && after.tasks[t].depth == s.tasks[t].depth)
            && (forall c :: 0 <= c < |s.chains| ==> s.chains[c] <= after.chains[c])
  {
    if e.RereadStale? && s.sweep.Updated? { OweSweptKeepsRows(s.(sweep := NoSweep), s.sweep.stale); }
  }

  /** Why the directory of `t` can never be removed again. */
  ghost predicate Leaked(s: State, t: TaskId, late: bool) {
    t < |s.tasks| && (late || (t in s.uploaded && UnfitNext(s, t)))
  }

  lemma {:induction false} LeakedStays(s: State, events: seq<Event>, t: TaskId, late: bool)
    requires Sound(s) && Staging(s, t, late) && OwesFreshOnly(s, events) && NeverNamed(events, t) && Leaked(s, t, late)
    ensures OfTask(t) in Run(s, events).dirs
    decreases |events|
  {
    if events != [] {
      StepStaysSound(s, events[0]);
      StepStages(s, events[0], t, late);
      RowsStay(s, events[0]);
      if UnfitNext(s, t) { UnfitStays(s, events[0], t); }
      LeakedStays(Step(s, events[0]), events[1..], t, late || Late(s, events[0], t));
    }
  }

  lemma {:induction false} FreshConcat(s: State, a: seq<Event>, b: seq<Event>)
    requires OwesFreshOnly(s, a + b)
    ensures OwesFreshOnly(s, a) && OwesFreshOnly(Run(s, a), b)
    decreases |a|
  {
    if a == [] {
      assert a + b == b;
    } else {
      assert (a + b)[1..] == a[1..] + b;
      FreshConcat(Step(s, a[0]), a[1..], b);
    }
  }

  lemma StagedFromStart(clock: Time, events: seq<Event>, t: TaskId)
    requires OwesFreshOnly(Init(clock), events) && NeverNamed(events, t)
    ensures var s := Run(Init(clock), events); Sound(s) && Staging(s, t, LateUpload(Init(clock), events, t))
  {
    RunStages(Init(clock), events, t, false);
  }

  /** The state between two parts of a run, and what it takes to go on from there. */
  lemma Halfway(clock: Time, before: seq<Event>, after: seq<Event>, t: TaskId)
    requires OwesFreshOnly(Init(clock), before + after) && NeverNamed(before + after, t)
    ensures var s := Run(Init(clock), before);
            && Sound(s) && Staging(s, t, LateUpload(Init(clock), before, t))
            && OwesFreshOnly(s, after) && NeverNamed(after, t)
            && Run(Init(clock), before + after) == Run(s, after)
  {
    FreshConcat(Init(clock), before, after);
    RunConcat(Init(clock), before, after);
    assert NeverNamed(before, t) && NeverNamed(after, t) by {
      assert forall e :: e in before || e in after ==> e in before + after;
    }
    StagedFromStart(clock, before, t);
  }

  /** MAIN RESULT. A directory that is still there when nobody needs it stays in every later state: no hook,
      sweep or report ever removes it. */
  lemma UnneededIsNeverRemoved(clock: Time, before: seq<Event>, after: seq<Event>, t: TaskId)
    requires OwesFreshOnly(Init(clock), before + after) && NeverNamed(before + after, t)
    ensures var early, late := Run(Init(clock), before), Run(Init(clock), before + after);
            t < |early.tasks| && OfTask(t) in early.dirs && !Needed(early, t) ==> OfTask(t) in late.dirs
  {
    var early := Run(Init(clock), before);
    Halfway(clock, before, after, t);
    if t < |early.tasks| && OfTask(t) in early.dirs && !Needed(early, t) {
      LeakedStays(early, after, t, LateUpload(Init(clock), before, t));
    }
  }

  /** MAIN RESULT. The upload endpoint looks at the owner of a task and not at its status: an upload after the
      hooks are done stages a directory that is there for ever, unless some payload names it. */
  lemma LateUploadIsNeverRemoved(clock: Time, before: seq<Event>, after: seq<Event>, t: TaskId, server: ServerId)
    requires var events := before + ([Upload(t, server)] + after); OwesFreshOnly(Init(clock), events) && NeverNamed(events, t)
    ensures var s := Run(Init(clock), before);
            t < |s.tasks| && s.tasks[t].server == server && HooksDone(s, t) ==>
              OfTask(t) in Run(Init(clock), before + ([Upload(t, server)] + after)).dirs
  {
    var s, rest := Run(Init(clock), before), [Upload(t, server)] + after;
    Halfway(clock, before, rest, t);
    if t < |s.tasks| && s.tasks[t].server == server && HooksDone(s, t) {
      var late := LateUpload(Init(clock), before, t);
      assert rest[1..] == after;
      StepStaysSound(s, rest[0]);
      StepStages(s, rest[0], t, late);
      assert Late(s, rest[0], t);
      LeakedStays(Step(s, rest[0]), after, t, true);
    }
  }

  /** MAIN RESULT. What was staged by a task whose chain went on with one that does not read it is there for ever,
      unless some payload names it. */
  lemma UnfitUploadIsNeverRemoved(clock: Time, before: seq<Event>, after: seq<Event>, t: TaskId)
    requires OwesFreshOnly(Init(clock), before + after) && NeverNamed(before + after, t)
    ensures var early := Run(Init(clock), before);
            t < |early.tasks| && t in early.uploaded && UnfitNext(early, t) ==>
              OfTask(t) in Run(Init(clock), before + after).dirs
  {
    var early := Run(Init(clock), before);
    Halfway(clock, before, after, t);
    if t < |early.tasks| && t in early.uploaded && UnfitNext(early, t) {
      LeakedStays(early, after, t, LateUpload(Init(clock), before, t));
    }
  }

  // ── the discipline of the agents ────────────────────────────────────

  /** The task uploads while it is open only. */
  ghost predicate UploadsOpen(s: State, events: seq<Event>, t: TaskId)
    decreases |events|
  {
    events != [] ==>
      (events[0].Upload? && events[0].task == t ==> Open(s, t)) && UploadsOpen(Step(s, events[0]), events[1..], t)
  }

  /** While a task is open an upload is in time. */
  lemma OpenIsInTime(s: State, t: TaskId)
    requires Sound(s) && Open(s, t)
    ensures Needed(s, t)
  {
    OpenHasNoJob(s, Unowed(s), t);
    assert TaskOk(s, t, Unowed(s)) && LinkOk(s, s.tasks[t].chain, s.tasks[t].depth);
  }

  lemma {:induction false} OpenUploadsAreNotLate(s: State, events: seq<Event>, t: TaskId)
    requires Sound(s) && OwesFreshOnly(s, events) && UploadsOpen(s, events, t)
    ensures !LateUpload(s, events, t)
    decreases |events|
  {
    if events != [] {
      if Open(s, t) { OpenIsInTime(s, t); }
      StepStaysSound(s, events[0]);
      OpenUploadsAreNotLate(Step(s, events[0]), events[1..], t);
    }
  }

  /** MAIN RESULT. A task that uploads while it is open, chained to its consumer or to nothing, and that nobody names: its
      directory exists exactly while it is needed, so as long as the consumer is live, and is gone when the hooks are done. */
  lemma WellStagedExactlyWhileNeeded(clock: Time, events: seq<Event>, t: TaskId)
    requires OwesFreshOnly(Init(clock), events) && NeverNamed(events, t) && UploadsOpen(Init(clock), events, t)
    requires t < |Run(Init(clock), events).tasks| && Fit(Run(Init(clock), events).tasks[t].payload)
    ensures var s := Run(Init(clock), events);
            && (OfTask(t) in s.dirs <==> t in s.uploaded && Needed(s, t))
            && (HooksDone(s, t) ==> OfTask(t) !in s.dirs)
  {
    var s := Run(Init(clock), events);
    StagedExactlyWhen(clock, events, t);
    OpenUploadsAreNotLate(Init(clock), events, t);
    RunStages(Init(clock), events, t, false);
    if Successor(s, t).Some? { SourceIsPredecessor(s, Successor(s, t).value, t); }
  }

  // ── any directory, named or not ─────────────────────────────────────

  /** A clean-up that a run of the hooks has done. */
  datatype Cleanup = InputOf(job: JobId) | OutputOf(job: JobId)

  ghost predicate Did(s: State, c: Cleanup, t: TaskId) {
    c.job < |s.jobs| &&
    var job := s.jobs[c.job];
    match c
    case InputOf(_) => job.payload.source == Some(OfTask(t)) && job.pc in {CleaningOutput, Finished}
    case OutputOf(_) => job.task == t && job.pc == Finished && job.link != Enqueued
  }

  lemma StepCleans(s: State, e: Event, t: TaskId)
    ensures forall c :: Did(s, c, t) ==> Did(Step(s, e), c, t)
    ensures OfTask(t) in Step(s, e).dirs <==>
              Arrives(s, e, t) || (OfTask(t) in s.dirs && forall c :: Did(Step(s, e), c, t) ==> Did(s, c, t))
  {
    var after := Step(s, e);
    if e.RereadStale? && s.sweep.Updated? {
      OweSweptKeepsRows(s.(sweep := NoSweep), s.sweep.stale);
      OweSweptChains(s.(sweep := NoSweep), s.sweep.stale);
    }
    if e.Hook? && e.job < |s.jobs| { HookCleans(s, e.job, e.enqueues, t); }
  }

  lemma HookCleans(s: State, j: JobId, enqueues: bool, t: TaskId)
    requires j < |s.jobs|
    ensures var after := HookStep(s, j, enqueues);
            && (forall c :: Did(s, c, t) ==> Did(after, c, t))
            && (OfTask(t) in after.dirs <==> OfTask(t) in s.dirs && forall c :: Did(after, c, t) ==> Did(s, c, t))
  {
    var after := HookStep(s, j, enqueues);
    if OfTask(t) in s.dirs && OfTask(t) !in after.dirs {
      var c := if s.jobs[j].pc == CleaningInput then InputOf(j) else OutputOf(j);
      assert Did(after, c, t) && !Did(s, c, t);
    }
  }

  /** The `i`th event uploads for `t`, and no clean-up of its directory comes after it. */
  ghost predicate LastsFrom(clock: Time, events: seq<Event>, i: nat, t: TaskId)
    requires i < |events|
  {
    var s := Run(Init(clock), events[..i]);
    && Arrives(s, events[i], t)
    && forall c :: Did(Run(Init(clock), events), c, t) ==> Did(s, c, t)
  }

  lemma {:induction false} RunCleans(s: State, events: seq<Event>, t: TaskId)
    ensures forall c :: Did(s, c, t) ==> Did(Run(s, events), c, t)
    decreases |events|
  {
    if events != [] {
      StepCleans(s, events[0], t);
      RunCleans(Step(s, events[0]), events[1..], t);
    }
  }

  /** MAIN RESULT. In every run whatever, hooks run twice and named directories included: a directory is there if and only
      if no clean-up came after some upload: no task whose payload names it, and no task that filled it and has no
      successor, has come so far in its hooks since. */
  lemma {:induction false} PresentExactlyWhen(clock: Time, events: seq<Event>, t: TaskId)
    ensures OfTask(t) in Run(Init(clock), events).dirs <==> exists i :: 0 <= i < |events| && LastsFrom(clock, events, i, t)
    decreases |events|
  {
    if events != [] {
      var last := |events| - 1;
      var init, e := events[..last], events[last];
      var s := Run(Init(clock), init);
      assert events == init + [e];
      RunConcat(Init(clock), init, [e]);
      assert Run(s, [e]) == Step(s, e);
      PresentExactlyWhen(clock, init, t);
      StepCleans(s, e, t);
      forall i | 0 <= i < last
        ensures LastsFrom(clock, events, i, t) <==>
                  LastsFrom(clock, init, i, t) && forall c :: Did(Step(s, e), c, t) ==> Did(s, c, t)
      {
        assert events[..i] == init[..i] && init == init[..i] + init[i..];
        RunConcat(Init(clock), init[..i], init[i..]);
        RunCleans(Run(Init(clock), init[..i]), init[i..], t);
      }
      assert Arrives(s, e, t) <==> LastsFrom(clock, events, last, t);
    }
  }

  // ── a reader that names the directory ───────────────────────────────

  predicate Reads(s: State, u: TaskId, t: TaskId) {
    u < |s.tasks| && s.tasks[u].payload.source == Some(OfTask(t))
  }

  /** The hooks of `u` have removed its input. */
  ghost predicate InputGone(s: State, u: TaskId) {
    u < |s.tasks| && PcIn(s, u, {CleaningOutput, Finished})
  }

  /** The hooks of `t` have removed its output. */
  ghost predicate OutputGone(s: State, t: TaskId) {
    t < |s.tasks| && PcIn(s, t, {Finished}) && !HasEnqueued(s, t)
  }

  /** The `i`th event uploads for `t`; since then neither `t` nor another reader than `r` has removed the directory. */
  ghost predicate KeptFor(clock: Time, events: seq<Event>, i: nat, t: TaskId, r: TaskId)
    requires i < |events|
  {
    var early, s := Run(Init(clock), events[..i]), Run(Init(clock), events);
    && Arrives(early, events[i], t)
    && (OutputGone(s, t) ==> OutputGone(early, t))
    && forall u: TaskId :: u != r && Reads(s, u, t) && InputGone(s, u) ==> InputGone(early, u)
  }

  /** Later in a run jobs are of the same tasks and rows have the same payloads. */
  lemma {:induction false} RunKeepsRows(s: State, events: seq<Event>)
    ensures var after := Run(s, events);
            && |s.tasks| <= |after.tasks| && JobsKept(s, after)
            && forall t :: 0 <= t < |s.tasks| ==> after.tasks[t].payload == s.tasks[t].payload
    decreases |events|
  {
    if events != [] {
      RowsStay(s, events[0]);
      StepKeepsJobs(s, events[0]);
      RunKeepsRows(Step(s, events[0]), events[1..]);
    }
  }

  /** The second state comes after the first in a run in which the hooks run once. */
  ghost predicate Precedes(early: State, s: State) {
    && Sound(early) && Sound(s) && JobsKept(early, s) && |early.tasks| <= |s.tasks|
    && forall u :: 0 <= u < |early.tasks| ==> s.tasks[u].payload == early.tasks[u].payload
  }

  lemma JobStays(early: State, s: State, u: TaskId)
    requires Precedes(early, s) && u < |early.tasks| && early.tasks[u].job.Some?
    ensures s.tasks[u].job == early.tasks[u].job && early.tasks[u].job.value < |early.jobs|
    ensures var j := early.tasks[u].job.value; early.jobs[j].task == u && s.jobs[j].task == u
  {
    assert TaskOk(early, u, Unowed(early));
    assert JobOk(s, early.tasks[u].job.value);
  }

  /** What the hooks of a reader and of the task itself have done, in terms of clean-ups. */
  lemma InputIsDid(early: State, s: State, u: TaskId, t: TaskId)
    requires Precedes(early, s) && Reads(s, u, t) && InputGone(s, u)
    ensures var c := InputOf(s.tasks[u].job.value); Did(s, c, t) && (Did(early, c, t) <==> InputGone(early, u))
  {
    var j := s.tasks[u].job.value;
    assert TaskOk(s, u, Unowed(s)) && JobOk(s, j);
    if u < |early.tasks| && early.tasks[u].job.Some? { JobStays(early, s, u); }
    if j < |early.jobs| { assert JobOk(early, j); }
  }

  lemma OutputIsDid(early: State, s: State, t: TaskId)
    requires Precedes(early, s) && OutputGone(s, t)
    ensures var c := OutputOf(s.tasks[t].job.value); Did(s, c, t) && (Did(early, c, t) <==> OutputGone(early, t))
  {
    var j := s.tasks[t].job.value;
    assert TaskOk(s, t, Unowed(s)) && JobOk(s, j);
    if t < |early.tasks| && early.tasks[t].job.Some? { JobStays(early, s, t); }
    if j < |early.jobs| { assert JobOk(early, j); }
  }

  lemma DidIsOfTask(s: State, c: Cleanup, t: TaskId)
    requires Sound(s) && Did(s, c, t)
    ensures var u := s.jobs[c.job].task;
            && u < |s.tasks| && s.tasks[u].job == Some(c.job)
            && (c.InputOf? ==> Reads(s, u, t) && InputGone(s, u)) && (c.OutputOf? ==> u == t && OutputGone(s, t))
  {
    assert JobOk(s, c.job);
  }

  /** Counted in clean-ups or in tasks, nothing was removed between the two states. */
  lemma SameCleanups(early: State, s: State, t: TaskId, r: TaskId)
    requires Precedes(early, s) && !InputGone(s, r)
    ensures (forall c :: Did(s, c, t) ==> Did(early, c, t)) <==>
              && (OutputGone(s, t) ==> OutputGone(early, t))
              && forall u: TaskId :: u != r && Reads(s, u, t) && InputGone(s, u) ==> InputGone(early, u)
  {
    if OutputGone(s, t) { OutputIsDid(early, s, t); }
    forall u: TaskId | Reads(s, u, t) && InputGone(s, u)
      ensures var c := InputOf(s.tasks[u].job.value); Did(s, c, t) && (Did(early, c, t) <==> InputGone(early, u))
    {
      InputIsDid(early, s, u, t);
    }
    forall c | Did(s, c, t)
      ensures var u := s.jobs[c.job].task;
              && u < |s.tasks| && s.tasks[u].job == Some(c.job)
              && (c.InputOf? ==> Reads(s, u, t) && InputGone(s, u)) && (c.OutputOf? ==> u == t && OutputGone(s, t))
    {
      DidIsOfTask(s, c, t);
    }
  }

  lemma LaterComesAfter(early: State, events: seq<Event>)
    requires Sound(early) && OwesFreshOnly(early, events)
    ensures Precedes(early, Run(early, events))
  {
    RunStaysSound(early, events);
    RunKeepsRows(early, events);
  }

  lemma SplitAt(s: State, events: seq<Event>, i: nat)
    requires OwesFreshOnly(s, events) && i <= |events|
    ensures OwesFreshOnly(s, events[..i]) && OwesFreshOnly(Run(s, events[..i]), events[i..])
    ensures Run(s, events) == Run(Run(s, events[..i]), events[i..])
  {
    assert events == events[..i] + events[i..];
    FreshConcat(s, events[..i], events[i..]);
    RunConcat(s, events[..i], events[i..]);
  }

  lemma PrefixPrecedes(clock: Time, events: seq<Event>, i: nat)
    requires OwesFreshOnly(Init(clock), events) && i <= |events|
    ensures Precedes(Run(Init(clock), events[..i]), Run(Init(clock), events))
  {
    var early := Run(Init(clock), events[..i]);
    SplitAt(Init(clock), events, i);
    assert Sound(early) by { RunStaysSound(Init(clock), events[..i]); }
    LaterComesAfter(early, events[i..]);
  }

  /** MAIN RESULT. In any run in which the hooks run once: a task that names `t` as its source and has not cleaned up
      yet finds its directory if and only if some upload came after which neither the hooks of `t` (when it chained
      nothing) nor those of another reader removed it. */
  lemma ReaderFindsExactlyWhen(clock: Time, events: seq<Event>, t: TaskId, r: TaskId)
    requires OwesFreshOnly(Init(clock), events)
    requires var s := Run(Init(clock), events); Reads(s, r, t) && !InputGone(s, r)
    ensures OfTask(t) in Run(Init(clock), events).dirs <==> exists i :: 0 <= i < |events| && KeptFor(clock, events, i, t, r)
  {
    var s := Run(Init(clock), events);
    PresentExactlyWhen(clock, events, t);
    forall i | 0 <= i < |events| ensures LastsFrom(clock, events, i, t) <==> KeptFor(clock, events, i, t, r) {
      PrefixPrecedes(clock, events, i);
      SameCleanups(Run(Init(clock), events[..i]), s, t, r);
    }
  }

  // ── an application's volumes on the move ────────────────────────────

  lemma {:induction false} UploadsOpenAt(s: State, events: seq<Event>, t: TaskId, i: nat)
    requires UploadsOpen(s, events, t) && i < |events| && events[i].Upload? && events[i].task == t
    ensures Open(Run(s, events[..i]), t)
    decreases |events|
  {
    if i > 0 {
      assert events[..i][1..] == events[1..][..i - 1];
      UploadsOpenAt(Step(s, events[0]), events[1..], t, i - 1);
    }
  }

  lemma {:induction false} UploadedArrived(s: State, events: seq<Event>, t: TaskId)
    requires t in Run(s, events).uploaded && t !in s.uploaded
    ensures exists i :: 0 <= i < |events| && Arrives(Run(s, events[..i]), events[i], t)
    decreases |events|
  {
    if Arrives(s, events[0], t) {
      assert Run(s, events[..0]) == s;
    } else {
      StepUploads(s, events[0], t);
      UploadedArrived(Step(s, events[0]), events[1..], t);
      var i :| 0 <= i < |events| - 1 && Arrives(Run(Step(s, events[0]), events[1..][..i]), events[1..][i], t);
      assert events[..i + 1][1..] == events[1..][..i];
    }
  }

  lemma StepUploads(s: State, e: Event, t: TaskId)
    ensures t in Step(s, e).uploaded <==> t in s.uploaded || Arrives(s, e, t)
  {
    if e.RereadStale? && s.sweep.Updated? { OweSweptKeepsRows(s.(sweep := NoSweep), s.sweep.stale); }
  }

  lemma {:induction false} ArrivedIsUploaded(s: State, events: seq<Event>, t: TaskId)
    ensures t in s.uploaded ==> t in Run(s, events).uploaded
    ensures events != [] && Arrives(s, events[0], t) ==> t in Run(s, events).uploaded
    decreases |events|
  {
    if events != [] {
      StepUploads(s, events[0], t);
      ArrivedIsUploaded(Step(s, events[0]), events[1..], t);
    }
  }

  lemma {:induction false} RunTracks(s: State, events: seq<Event>)
    requires Tracked(s)
    ensures Tracked(Run(s, events))
    decreases |events|
  {
    if events != [] {
      StepTracks(s, events[0]);
      RunTracks(Step(s, events[0]), events[1..]);
    }
  }

  lemma OpenHasDoneNothing(s: State, t: TaskId, j: JobId)
    requires Tracked(s) && Open(s, t)
    ensures !Did(s, OutputOf(j), t)
  {
    assert s.tasks[t].job.Some? ==> TracksJob(s, t, s.tasks[t].job.value);
  }

  /** MAIN RESULT. In every run whatever: what a task uploaded while it was open is gone as soon as its hooks are done
      without having chained a successor, even where an open task names it, and for the service itself, which
      reads the directory when it sees the task COMPLETED. */
  lemma UnchainedExportIsLost(clock: Time, events: seq<Event>, t: TaskId, j: JobId)
    requires UploadsOpen(Init(clock), events, t)
    requires var s := Run(Init(clock), events);
             j < |s.jobs| && s.jobs[j].task == t && s.jobs[j].pc == Finished && s.jobs[j].link != Enqueued
    ensures OfTask(t) !in Run(Init(clock), events).dirs
  {
    var s := Run(Init(clock), events);
    PresentExactlyWhen(clock, events, t);
    assert Did(s, OutputOf(j), t);
    forall i | 0 <= i < |events| ensures !LastsFrom(clock, events, i, t) {
      var early := Run(Init(clock), events[..i]);
      if LastsFrom(clock, events, i, t) {
        UploadsOpenAt(Init(clock), events, t, i);
        RunTracks(Init(clock), events[..i]);
        OpenHasDoneNothing(early, t, j);
      }
    }
  }

  /** MAIN RESULT. So a task that names an export that uploaded while it was open finds its volumes, other readers aside, if
      and only if the export's own hooks, when they chained nothing, have not finished. */
  lemma MoveWorksExactlyWhen(clock: Time, events: seq<Event>, t: TaskId, r: TaskId)
    requires OwesFreshOnly(Init(clock), events) && UploadsOpen(Init(clock), events, t)
    requires var s := Run(Init(clock), events);
             Reads(s, r, t) && forall u :: Reads(s, u, t) ==> !InputGone(s, u)
    ensures var s := Run(Init(clock), events); OfTask(t) in s.dirs <==> t in s.uploaded && !OutputGone(s, t)
  {
    var s := Run(Init(clock), events);
    ReaderFindsExactlyWhen(clock, events, t, r);
    if t in s.uploaded && !OutputGone(s, t) {
      UploadedArrived(Init(clock), events, t);
      var i :| 0 <= i < |events| && Arrives(Run(Init(clock), events[..i]), events[i], t);
      assert KeptFor(clock, events, i, t, r);
    }
    forall i | 0 <= i < |events| && KeptFor(clock, events, i, t, r) ensures t in s.uploaded && !OutputGone(s, t) {
      var early := Run(Init(clock), events[..i]);
      SplitAt(Init(clock), events, i);
      ArrivedIsUploaded(early, events[i..], t);
      RunStaysSound(Init(clock), events[..i]);
      UploadsOpenAt(Init(clock), events, t, i);
      OpenHasNoJob(early, Unowed(early), t);
    }
  }

  const VOLUMES := Payload(None, [])
  const EXPORTING: seq<Event> :=
    [Enqueue(1, OTHER("VOLUME_EXPORT"), VOLUMES), Poll(1, [0]), Upload(0, 1), FullReport(0, 1, true, None)]
  const IMPORTING: seq<Event> :=
    [Hook(0, false), Hook(0, false), Hook(0, false), Enqueue(2, VOLUME_IMPORT, Payload(Some(OfTask(0)), []))]

  function Exported(clock: Time): State {
    Init(clock).(
      tasks := [Task(1, OTHER("VOLUME_EXPORT"), VOLUMES, COMPLETED, None, clock, 0, 0, Some(0))],
      chains := [[0]], handed := [0], jobs := [Job(0, VOLUMES, COMPLETED, Chaining, Undecided)],
      dirs := {OfTask(0)}, uploaded := {0})
  }

  function Exporting(clock: Time, status: Status, handed: seq<TaskId>): State {
    Init(clock).(
      tasks := [Task(1, OTHER("VOLUME_EXPORT"), VOLUMES, status, None, clock, 0, 0, None)], chains := [[0]], handed := handed)
  }

  lemma ExportIsQueued(clock: Time)
    ensures EnqueueStep(Init(clock), 1, OTHER("VOLUME_EXPORT"), VOLUMES) == Exporting(clock, QUEUED, [])
  {
  }

  lemma ExportIsClaimed(clock: Time)
    ensures var queued := Exporting(clock, QUEUED, []);
            Claims(queued, 1, [0]) && PollStep(queued, [0]) == Exporting(clock, RUNNING, [0])
  {
    var polled := PollStep(Exporting(clock, QUEUED, []), [0]);
    assert 0 in [0] && polled.tasks == Exporting(clock, RUNNING, [0]).tasks;
  }

  lemma ExportIsReported(clock: Time)
    ensures var uploaded := Exporting(clock, RUNNING, [0]).(dirs := {OfTask(0)}, uploaded := {0});
            && Step(Exporting(clock, RUNNING, [0]), Upload(0, 1)) == uploaded
            && Step(uploaded, FullReport(0, 1, true, None)) == Exported(clock)
  {
  }

  lemma ExportRuns(clock: Time)
    ensures Run(Init(clock), EXPORTING) == Exported(clock)
  {
    RunFour(Init(clock), EXPORTING);
    ExportIsQueued(clock);
    ExportIsClaimed(clock);
    ExportIsReported(clock);
  }

  /** A move as the service makes it: an export without a chain, awaited, then an import that names it. The import is
      open and what it is to read is gone. */
  lemma MovedVolumesAreGone(clock: Time)
    ensures var s := Run(Init(clock), EXPORTING + IMPORTING);
            Open(s, 1) && Reads(s, 1, 0) && 0 in s.uploaded && OfTask(0) !in s.dirs
  {
    ExportRuns(clock);
    RunConcat(Init(clock), EXPORTING, IMPORTING);
    RunFour(Exported(clock), IMPORTING);
    HooksClean(clock);
    assert IMPORTING[3].payload == Payload(Some(OfTask(0)), []);
  }

  lemma HooksClean(clock: Time)
    ensures var s := Exported(clock);
            Step(Step(Step(s, Hook(0, false)), Hook(0, false)), Hook(0, false)) ==
              s.(dirs := {}, jobs := [Job(0, VOLUMES, COMPLETED, Finished, NothingToEnqueue)])
  {
    var s := Exported(clock);
    assert HookStep(s, 0, false) == s.(jobs := [Job(0, VOLUMES, COMPLETED, CleaningInput, NothingToEnqueue)]);
  }

  lemma RunFour(s: State, e: seq<Event>)
    requires |e| == 4
    ensures Run(s, e) == Step(Step(Step(Step(s, e[0]), e[1]), e[2]), e[3])
  {
    assert e[1..][1..] == e[2..] && e[2..][1..] == e[3..] && e[3..][1..] == [];
    var s1 := Step(s, e[0]);
    var s2 := Step(s1, e[1]);
    var s3 := Step(s2, e[2]);
    assert Run(s, e) == Run(s1, e[1..]);
    assert Run(s1, e[1..]) == Run(s2, e[2..]);
    assert Run(s2, e[2..]) == Run(s3, e[3..]);
    assert Run(s3, e[3..]) == Step(s3, e[3]);
  }
}
