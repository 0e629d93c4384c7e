/**
 The task protocol between the API and its agents
 (apps/api/src/modules/agent/agent.service.ts).

 Rows are created QUEUED, claimed by polls, closed by result reports or by the
 stale sweep; the termination hooks of a closed row enqueue the next entry of its
 onComplete chain and clean its staging directories. Every step is one database
 statement or one file-system call; any number of polls, reports and hooks
 interleave, sweeps do not overlap.

 Four fields record history and decide no step: `handed` (every hand-out), `uploaded`,
 `chains` with Task.chain/depth (who was enqueued by whom), and Task.job.
 */
module AgentTasks {
  import opened Wrappers

  type Time = int
  type TaskId = nat
  type ServerId = nat
  type JobId = nat
  type ReportId = nat

  const STALE_MS := 30 * 60 * 1000
  const BATCH := 10
  const SWEEP_ERROR: string := "Task timed out \U{2014} agent disconnected"

  datatype Kind = VOLUME_IMPORT | RESTORE | OTHER(name: string)

  datatype Status = QUEUED | RUNNING | COMPLETED | FAILED

  /** A staging directory: transfers/<taskId>, or one the API filled itself. */
  datatype Dir = OfTask(id: TaskId) | Staged(name: string)

  /** The parts of a payload the service reads: sourceTaskId and onComplete. */
  datatype Payload = Payload(source: Option<Dir>, chain: seq<Entry>)

  /** An onComplete entry; without a server or a type it is malformed. */
  datatype Entry = Malformed | Entry(server: ServerId, kind: Kind, payload: Payload)

  datatype Task = Task(
    server: ServerId, kind: Kind, payload: Payload,
    status: Status, error: Option<string>, createdAt: Time,
    chain: nat, depth: nat, job: Option<JobId>)

  /** handleTaskTermination under way: the next statement, and what chaining did. */
  datatype Pc = Chaining | CleaningInput | CleaningOutput | Finished
  datatype Link = Undecided | Enqueued | EnqueueFailed | NothingToEnqueue
  datatype Job = Job(task: TaskId, payload: Payload, outcome: Status, pc: Pc, link: Link)

  /** A report between its read of the row and its write. */
  datatype Report = Report(task: TaskId, completed: bool, error: Option<string>)

  datatype Sweep = NoSweep | Selected(stale: seq<TaskId>) | Updated(stale: seq<TaskId>, swept: set<TaskId>)

  datatype State = State(
    clock: Time,
    tasks: seq<Task>,
    chains: seq<seq<TaskId>>,
    handed: seq<TaskId>,
    reports: map<ReportId, Report>,
    sweep: Sweep,
    jobs: seq<Job>,
    dirs: set<Dir>,
    uploaded: set<TaskId>)

  function Init(clock: Time): State {
    State(clock, [], [], [], map[], NoSweep, [], {}, {})
  }

  datatype Event =
    | Pass(time: Time)
    | Enqueue(server: ServerId, kind: Kind, payload: Payload)
    | Poll(server: ServerId, ids: seq<TaskId>)
    | FullReport(task: TaskId, server: ServerId, completed: bool, error: Option<string>)
    | ReadReport(report: ReportId, task: TaskId, server: ServerId, completed: bool, error: Option<string>)
    | WriteReport(report: ReportId)
    | SelectStale(stale: seq<TaskId>) | UpdateStale | RereadStale
    | Hook(job: JobId, enqueues: bool)
    | Upload(task: TaskId, server: ServerId)

  predicate Terminal(status: Status) {
    status == COMPLETED || status == FAILED
  }

  predicate Open(s: State, t: TaskId) {
    t < |s.tasks| && !Terminal(s.tasks[t].status)
  }

  predicate Distinct(ids: seq<TaskId>) {
    forall i, j :: 0 <= i < j < |ids| ==> ids[i] != ids[j]
  }

  // ── chains ──────────────────────────────────────────────────────────

  predicate Consumes(kind: Kind) {
    kind == VOLUME_IMPORT || kind == RESTORE
  }

  predicate Chains(p: Payload) {
    p.chain != [] && p.chain[0].Entry?
  }

  /** What is left of a chain once its head has been enqueued: the remainder of the list,
      which overwrites a chain of the head's own; the head's own when nothing remains. */
  function Rest(chain: seq<Entry>): seq<Entry>
    requires chain != [] && chain[0].Entry?
  {
    if chain[1..] != [] then chain[1..] else chain[0].payload.chain
  }

  /** The payload enqueued for the head of the chain of task `id`. */
  function NextPayload(p: Payload, id: TaskId): Payload
    requires Chains(p)
  {
    var head := p.chain[0];
    var source := if Consumes(head.kind) && head.payload.source.None? then Some(OfTask(id)) else head.payload.source;
    Payload(source, Rest(p.chain))
  }

  /** The entries of a nested chain: what bounds the tasks it can ever enqueue. */
  function Entries(chain: seq<Entry>): nat
    decreases chain
  {
    if chain == [] then 0 else Weight(chain[0]) + Entries(chain[1..])
  }

  function Weight(e: Entry): nat
    decreases e
  {
    match e
    case Malformed => 1
    case Entry(_, _, payload) => 1 + Entries(payload.chain)
  }

  lemma RestIsSmaller(chain: seq<Entry>)
    requires chain != [] && chain[0].Entry?
    ensures Entries(Rest(chain)) < Entries(chain)
  {
  }

  /** What a chain enqueues when every one of its tasks completes. */
  function Plan(chain: seq<Entry>): (plan: seq<(ServerId, Kind)>)
    ensures |plan| <= Entries(chain)
    decreases Entries(chain)
  {
    if chain == [] || chain[0].Malformed? then []
    else
      RestIsSmaller(chain);
      [(chain[0].server, chain[0].kind)] + Plan(Rest(chain))
  }

  // ── the steps ───────────────────────────────────────────────────────

  function AddTask(s: State, server: ServerId, kind: Kind, payload: Payload, chain: nat, depth: nat): State {
    s.(tasks := s.tasks + [Task(server, kind, payload, QUEUED, None, s.clock, chain, depth, None)])
  }

  function EnqueueStep(s: State, server: ServerId, kind: Kind, payload: Payload): State {
    AddTask(s, server, kind, payload, |s.chains|, 0).(chains := s.chains + [[|s.tasks|]])
  }

  /** What the claiming statement picks: up to ten of the server's QUEUED rows, oldest first. */
  predicate Claims(s: State, server: ServerId, ids: seq<TaskId>) {
    && Distinct(ids) && |ids| <= BATCH
    && (forall i :: 0 <= i < |ids| ==>
          ids[i] < |s.tasks| && s.tasks[ids[i]].status == QUEUED && s.tasks[ids[i]].server == server)
    && (forall t :: 0 <= t < |s.tasks| && s.tasks[t].status == QUEUED && s.tasks[t].server == server && t !in ids ==>
          |ids| == BATCH && forall i :: 0 <= i < |ids| ==> s.tasks[ids[i]].createdAt <= s.tasks[t].createdAt)
  }

  function PollStep(s: State, ids: seq<TaskId>): State {
    s.(tasks := seq(|s.tasks|, t requires 0 <= t < |s.tasks| =>
         if t in ids then s.tasks[t].(status := RUNNING) else s.tasks[t]),
       handed := s.handed + ids)
  }

  /** A terminated row enters handleTaskTermination. */
  function Owe(s: State, t: TaskId): State
    requires t < |s.tasks|
  {
    s.(tasks := s.tasks[t := s.tasks[t].(job := Some(|s.jobs|))],
       jobs := s.jobs + [Job(t, s.tasks[t].payload, s.tasks[t].status, Chaining, Undecided)])
  }

  function WriteResult(s: State, t: TaskId, completed: bool, error: Option<string>): State
    requires t < |s.tasks|
  {
    var closed := s.tasks[t].(status := if completed then COMPLETED else FAILED, error := error);
    Owe(s.(tasks := s.tasks[t := closed]), t)
  }

  predicate Accepts(s: State, t: TaskId, server: ServerId) {
    t < |s.tasks| && s.tasks[t].server == server && !Terminal(s.tasks[t].status)
  }

  predicate IsStale(s: State, t: TaskId) {
    t < |s.tasks| && !Terminal(s.tasks[t].status) && s.tasks[t].createdAt < s.clock - STALE_MS
  }

  function UpdateStep(s: State, stale: seq<TaskId>): State {
    s.(tasks := seq(|s.tasks|, t requires 0 <= t < |s.tasks| =>
         if t in stale && !Terminal(s.tasks[t].status)
         then s.tasks[t].(status := FAILED, error := Some(SWEEP_ERROR)) else s.tasks[t]),
       sweep := Updated(stale, set t | t in stale && Open(s, t)))
  }

  /** The re-read: rows of the selection that are FAILED with the sweep's own text. */
  predicate LooksSwept(s: State, t: TaskId) {
    t < |s.tasks| && s.tasks[t].status == FAILED && s.tasks[t].error == Some(SWEEP_ERROR)
  }

  function OweSwept(s: State, stale: seq<TaskId>): State
    decreases |stale|
  {
    if stale == [] then s
    else OweSwept(if LooksSwept(s, stale[0]) then Owe(s, stale[0]) else s, stale[1..])
  }

  function RereadStep(s: State): State
    requires s.sweep.Updated?
  {
    var rest := s.(sweep := NoSweep);
    if s.sweep.swept == {} then rest else OweSwept(rest, s.sweep.stale)
  }

  function ChainStep(s: State, j: JobId, enqueues: bool): State
    requires j < |s.jobs| && s.jobs[j].task < |s.tasks| && s.tasks[s.jobs[j].task].chain < |s.chains|
  {
    var job := s.jobs[j];
    if job.outcome == COMPLETED && Chains(job.payload) then
      if enqueues then
        var head, chain := job.payload.chain[0], s.tasks[job.task].chain;
        AddTask(s, head.server, head.kind, NextPayload(job.payload, job.task), chain, |s.chains[chain]|)
          .(chains := s.chains[chain := s.chains[chain] + [|s.tasks|]],
            jobs := s.jobs[j := job.(pc := CleaningInput, link := Enqueued)])
      else s.(jobs := s.jobs[j := job.(pc := CleaningInput, link := EnqueueFailed)])
    else s.(jobs := s.jobs[j := job.(pc := CleaningInput, link := NothingToEnqueue)])
  }

  function HookStep(s: State, j: JobId, enqueues: bool): State
    requires j < |s.jobs|
  {
    var job := s.jobs[j];
    match job.pc
    case Chaining =>
      if job.task < |s.tasks| && s.tasks[job.task].chain < |s.chains| then ChainStep(s, j, enqueues) else s
    case CleaningInput =>
      s.(dirs := if job.payload.source.Some? then s.dirs - {job.payload.source.value} else s.dirs,
         jobs := s.jobs[j := job.(pc := CleaningOutput)])
    case CleaningOutput =>
      s.(dirs := if job.link == Enqueued then s.dirs else s.dirs - {OfTask(job.task)},
         jobs := s.jobs[j := job.(pc := Finished)])
    case Finished => s
  }

  function Step(s: State, e: Event): State {
    match e
    case Pass(time) => if time >= s.clock then s.(clock := time) else s
    case Enqueue(server, kind, payload) => EnqueueStep(s, server, kind, payload)
    case Poll(server, ids) => if Claims(s, server, ids) then PollStep(s, ids) else s
    case FullReport(t, server, completed, error) =>
      if Accepts(s, t, server) then WriteResult(s, t, completed, error) else s
    case ReadReport(r, t, server, completed, error) =>
      if Accepts(s, t, server) && r !in s.reports then s.(reports := s.reports[r := Report(t, completed, error)]) else s
    case WriteReport(r) =>
      if r in s.reports && s.reports[r].task < |s.tasks| then
        WriteResult(s, s.reports[r].task, s.reports[r].completed, s.reports[r].error).(reports := s.reports - {r})
      else s
    case SelectStale(stale) =>
      if s.sweep.NoSweep? && Distinct(stale) && (forall t :: 0 <= t < |s.tasks| ==> (t in stale <==> IsStale(s, t)))
         && (forall t :: t in stale ==> t < |s.tasks|) then
        s.(sweep := Selected(stale))
      else s
    case UpdateStale => if s.sweep.Selected? then UpdateStep(s, s.sweep.stale) else s
    case RereadStale => if s.sweep.Updated? then RereadStep(s) else s
    case Hook(j, enqueues) => if j < |s.jobs| then HookStep(s, j, enqueues) else s
    case Upload(t, server) =>
      if t < |s.tasks| && s.tasks[t].server == server then
        s.(dirs := s.dirs + {OfTask(t)}, uploaded := s.uploaded + {t})
      else s
  }

  function Run(s: State, events: seq<Event>): State
    decreases |events|
  {
    if events == [] then s else Run(Step(s, events[0]), events[1..])
  }

  // ── the conditions ──────────────────────────────────────────────────

  /** What one-step check-and-write gives: no report writes over a terminal row. */
  ghost predicate LandsOpen(s: State, e: Event) {
    e.WriteReport? && e.report in s.reports ==> Open(s, s.reports[e.report].task)
  }

  ghost predicate WritesLandOpen(s: State, events: seq<Event>)
    decreases |events|
  {
    events != [] ==> LandsOpen(s, events[0]) && WritesLandOpen(Step(s, events[0]), events[1..])
  }

  /** The sweep re-reads only rows it closed itself. */
  ghost predicate RereadIsOwn(s: State, e: Event) {
    e.RereadStale? && s.sweep.Updated? && s.sweep.swept != {} ==>
      forall t :: t in s.sweep.stale && LooksSwept(s, t) ==> t in s.sweep.swept
  }

  ghost predicate RereadsAreOwn(s: State, events: seq<Event>)
    decreases |events|
  {
    events != [] ==> RereadIsOwn(s, events[0]) && RereadsAreOwn(Step(s, events[0]), events[1..])
  }

  // ── the invariant ───────────────────────────────────────────────────

  /** `pending` are the rows closed by a sweep that has not re-read them yet. */
  ghost predicate TaskOk(s: State, t: TaskId, pending: set<TaskId>)
    requires t < |s.tasks|
  {
    var task := s.tasks[t];
    && task.chain < |s.chains| && task.depth < |s.chains[task.chain]| && s.chains[task.chain][task.depth] == t
    && (task.job.Some? ==> task.job.value < |s.jobs| && s.jobs[task.job.value].task == t)
    && (t in pending <==> Terminal(task.status) && task.job.None?)
  }

  ghost predicate TasksOk(s: State, pending: set<TaskId>) {
    forall t :: 0 <= t < |s.tasks| ==> TaskOk(s, t, pending)
  }

  ghost predicate JobOk(s: State, j: JobId)
    requires j < |s.jobs|
  {
    var job := s.jobs[j];
    && job.task < |s.tasks| && s.tasks[job.task].job == Some(j)
    && Terminal(job.outcome) && s.tasks[job.task].status == job.outcome && s.tasks[job.task].payload == job.payload
    && (job.link == Undecided <==> job.pc == Chaining)
    && (job.link == Enqueued || job.link == EnqueueFailed ==> job.outcome == COMPLETED && Chains(job.payload))
    && (job.link == NothingToEnqueue ==> !(job.outcome == COMPLETED && Chains(job.payload)))
  }

  ghost predicate JobsOk(s: State) {
    forall j :: 0 <= j < |s.jobs| ==> JobOk(s, j)
  }

  ghost predicate HasEnqueued(s: State, t: TaskId)
    requires t < |s.tasks|
  {
    s.tasks[t].job.Some? && s.tasks[t].job.value < |s.jobs| && s.jobs[s.tasks[t].job.value].link == Enqueued
  }

  ghost predicate Succeeds(s: State, t: TaskId, u: TaskId)
    requires t < |s.tasks|
  {
    && u < |s.tasks| && Chains(s.tasks[t].payload)
    && s.tasks[u].server == s.tasks[t].payload.chain[0].server
    && s.tasks[u].kind == s.tasks[t].payload.chain[0].kind
    && s.tasks[u].payload == NextPayload(s.tasks[t].payload, t)
  }

  /** The task at `d` of chain `c`, and what its successor owes to it. */
  ghost predicate LinkOk(s: State, c: nat, d: nat)
    requires c < |s.chains| && d < |s.chains[c]|
  {
    var t := s.chains[c][d];
    && t < |s.tasks| && s.tasks[t].chain == c && s.tasks[t].depth == d
    && (d + 1 < |s.chains[c]| <==> HasEnqueued(s, t))
    && (d + 1 < |s.chains[c]| ==> Succeeds(s, t, s.chains[c][d + 1]))
  }

  ghost predicate ChainsOk(s: State) {
    && (forall c :: 0 <= c < |s.chains| ==> s.chains[c] != [])
    && (forall c, d :: 0 <= c < |s.chains| && 0 <= d < |s.chains[c]| ==> LinkOk(s, c, d))
  }

  ghost predicate HandedOk(s: State) {
    && Distinct(s.handed)
    && forall i :: 0 <= i < |s.handed| ==> s.handed[i] < |s.tasks| && s.tasks[s.handed[i]].status != QUEUED
  }

  ghost predicate InvWith(s: State, pending: set<TaskId>) {
    && (forall t :: t in pending ==> t < |s.tasks|)
    && TasksOk(s, pending) && JobsOk(s) && ChainsOk(s) && HandedOk(s)
  }

  function Pending(s: State): set<TaskId> {
    if s.sweep.Updated? then s.sweep.swept else {}
  }

  ghost predicate SweepOk(s: State) {
    match s.sweep
    case NoSweep => true
    case Selected(stale) => Distinct(stale)
    case Updated(stale, swept) => Distinct(stale) && forall t :: t in swept ==> t in stale && LooksSwept(s, t)
  }

  ghost predicate Inv(s: State) {
    InvWith(s, Pending(s)) && SweepOk(s)
  }

  // ── every clean step keeps it ───────────────────────────────────────

  lemma OpenHasNoJob(s: State, pending: set<TaskId>, t: TaskId)
    requires InvWith(s, pending) && Open(s, t)
    ensures s.tasks[t].job.None? && t !in pending
  {
    assert TaskOk(s, t, pending);
    assert s.tasks[t].job.Some? ==> JobOk(s, s.tasks[t].job.value);
  }

  /** Rows may change status, error and nothing else, as long as no hooks are owed to them. */
  lemma StatusKeeps(s: State, after: State, pending: set<TaskId>, closed: set<TaskId>)
    requires InvWith(s, pending)
    requires after.chains == s.chains && after.jobs == s.jobs && after.handed == s.handed && |after.tasks| == |s.tasks|
    requires forall t :: t in closed ==> t < |s.tasks| && s.tasks[t].job.None?
    requires forall t :: 0 <= t < |s.tasks| ==>
      && after.tasks[t] == s.tasks[t].(status := after.tasks[t].status, error := after.tasks[t].error)
      && (t in closed ==> Terminal(after.tasks[t].status))
      && (t !in closed ==> after.tasks[t].status == s.tasks[t].status)
    ensures InvWith(after, pending + closed)
  {
    forall t | 0 <= t < |s.tasks| ensures TaskOk(after, t, pending + closed) {
      assert TaskOk(s, t, pending);
    }
    forall j | 0 <= j < |s.jobs| ensures JobOk(after, j) {
      assert JobOk(s, j);
    }
    forall c, d | 0 <= c < |s.chains| && 0 <= d < |s.chains[c]| ensures LinkOk(after, c, d) {
      assert LinkOk(s, c, d);
    }
    forall i | 0 <= i < |s.handed| ensures after.tasks[s.handed[i]].status != QUEUED {
      assert s.handed[i] in closed ==> Terminal(after.tasks[s.handed[i]].status);
    }
  }

  lemma OweKeeps(s: State, t: TaskId, pending: set<TaskId>)
    requires InvWith(s, pending) && t in pending
    ensures InvWith(Owe(s, t), pending - {t})
  {
    var after := Owe(s, t);
    assert TaskOk(s, t, pending);
    forall u | 0 <= u < |s.tasks| ensures TaskOk(after, u, pending - {t}) {
      assert TaskOk(s, u, pending);
    }
    forall j | 0 <= j < |after.jobs| ensures JobOk(after, j) {
      if j < |s.jobs| { assert JobOk(s, j); }
    }
    forall c, d | 0 <= c < |s.chains| && 0 <= d < |s.chains[c]| ensures LinkOk(after, c, d) {
      assert LinkOk(s, c, d);
    }
  }

  lemma ResultKeeps(s: State, t: TaskId, completed: bool, error: Option<string>, pending: set<TaskId>)
    requires InvWith(s, pending) && t < |s.tasks| && s.tasks[t].job.None?
    ensures InvWith(WriteResult(s, t, completed, error), pending - {t})
  {
    var closed := s.(tasks := s.tasks[t := s.tasks[t].(status := if completed then COMPLETED else FAILED, error := error)]);
    StatusKeeps(s, closed, pending, {t});
    OweKeeps(closed, t, pending + {t});
    assert pending + {t} - {t} == pending - {t};
  }

  lemma WriteResultKeeps(s: State, t: TaskId, completed: bool, error: Option<string>)
    requires Inv(s) && Open(s, t)
    ensures Inv(WriteResult(s, t, completed, error))
  {
    var pending := Pending(s);
    OpenHasNoJob(s, pending, t);
    ResultKeeps(s, t, completed, error, pending);
    assert pending - {t} == pending;
  }

  lemma CloseStaleKeeps(s: State, stale: seq<TaskId>, pending: set<TaskId>)
    requires InvWith(s, pending)
    ensures InvWith(UpdateStep(s, stale), pending + UpdateStep(s, stale).sweep.swept)
  {
    var after := UpdateStep(s, stale);
    forall t | t in after.sweep.swept ensures s.tasks[t].job.None? { OpenHasNoJob(s, pending, t); }
    StatusKeeps(s, after, pending, after.sweep.swept);
  }

  lemma UpdateKeeps(s: State)
    requires Inv(s) && s.sweep.Selected?
    ensures Inv(Step(s, UpdateStale))
  {
    var after := UpdateStep(s, s.sweep.stale);
    CloseStaleKeeps(s, s.sweep.stale, {});
    assert {} + after.sweep.swept == after.sweep.swept;
  }

  lemma {:induction false} OweSweptKeeps(s: State, stale: seq<TaskId>, pending: set<TaskId>)
    requires InvWith(s, pending) && Distinct(stale)
    requires forall t :: t in pending ==> t in stale && LooksSwept(s, t)
    requires forall t :: t in stale && LooksSwept(s, t) ==> t in pending
    ensures InvWith(OweSwept(s, stale), {})
    decreases |stale|
  {
    if stale == [] {
      assert pending == {};
    } else {
      var t, rest := stale[0], stale[1..];
      assert forall u :: u in stale <==> u == t || u in rest;
      assert t !in rest;
      if LooksSwept(s, t) {
        OweKeeps(s, t, pending);
        OweSweptKeeps(Owe(s, t), rest, pending - {t});
      } else {
        OweSweptKeeps(s, rest, pending);
      }
    }
  }

  lemma RereadKeeps(s: State)
    requires Inv(s) && s.sweep.Updated? && RereadIsOwn(s, RereadStale)
    ensures Inv(Step(s, RereadStale))
  {
    var rest := s.(sweep := NoSweep);
    assert InvWith(rest, Pending(s)) by { SameRecord(s, rest, Pending(s)); }
    if s.sweep.swept != {} {
      OweSweptKeeps(rest, s.sweep.stale, s.sweep.swept);
      OweSweptKeepsSweep(rest, s.sweep.stale);
    }
  }

  lemma {:induction false} OweSweptKeepsSweep(s: State, stale: seq<TaskId>)
    ensures OweSwept(s, stale).sweep == s.sweep
    decreases |stale|
  {
    if stale != [] { OweSweptKeepsSweep(if LooksSwept(s, stale[0]) then Owe(s, stale[0]) else s, stale[1..]); }
  }

  lemma SameRecord(s: State, after: State, pending: set<TaskId>)
    requires InvWith(s, pending)
    requires after.tasks == s.tasks && after.chains == s.chains && after.jobs == s.jobs && after.handed == s.handed
    ensures InvWith(after, pending)
  {
    forall t | 0 <= t < |s.tasks| ensures TaskOk(after, t, pending) { assert TaskOk(s, t, pending); }
    forall j | 0 <= j < |s.jobs| ensures JobOk(after, j) { assert JobOk(s, j); }
    forall c, d | 0 <= c < |s.chains| && 0 <= d < |s.chains[c]| ensures LinkOk(after, c, d) { assert LinkOk(s, c, d); }
  }

  lemma PollKeeps(s: State, server: ServerId, ids: seq<TaskId>, pending: set<TaskId>)
    requires InvWith(s, pending) && Claims(s, server, ids)
    ensures InvWith(PollStep(s, ids), pending)
  {
    var after := PollStep(s, ids);
    forall t | 0 <= t < |s.tasks| ensures TaskOk(after, t, pending) { assert TaskOk(s, t, pending); }
    forall j | 0 <= j < |s.jobs| ensures JobOk(after, j) { assert JobOk(s, j); }
    forall c, d | 0 <= c < |s.chains| && 0 <= d < |s.chains[c]| ensures LinkOk(after, c, d) { assert LinkOk(s, c, d); }
  }

  lemma EnqueueKeeps(s: State, server: ServerId, kind: Kind, payload: Payload, pending: set<TaskId>)
    requires InvWith(s, pending)
    ensures InvWith(EnqueueStep(s, server, kind, payload), pending)
  {
    var after := EnqueueStep(s, server, kind, payload);
    forall t | 0 <= t < |after.tasks| ensures TaskOk(after, t, pending) {
      if t < |s.tasks| { assert TaskOk(s, t, pending); }
    }
    forall j | 0 <= j < |s.jobs| ensures JobOk(after, j) { assert JobOk(s, j); }
    forall c, d | 0 <= c < |after.chains| && 0 <= d < |after.chains[c]| ensures LinkOk(after, c, d) {
      if c < |s.chains| { assert LinkOk(s, c, d); }
    }
  }

  /** A job moves past its chaining statement without enqueuing, or past a clean-up. */
  lemma MoveKeeps(s: State, after: State, j: JobId, pc: Pc, link: Link, pending: set<TaskId>)
    requires InvWith(s, pending) && j < |s.jobs|
    requires after == s.(dirs := after.dirs, jobs := s.jobs[j := s.jobs[j].(pc := pc, link := link)])
    requires pc != Chaining && link != Undecided && (link == Enqueued <==> s.jobs[j].link == Enqueued)
    requires link == EnqueueFailed ==> s.jobs[j].outcome == COMPLETED && Chains(s.jobs[j].payload)
    requires link == NothingToEnqueue ==> !(s.jobs[j].outcome == COMPLETED && Chains(s.jobs[j].payload))
    ensures InvWith(after, pending)
  {
    forall t | 0 <= t < |s.tasks| ensures TaskOk(after, t, pending) { assert TaskOk(s, t, pending); }
    forall i | 0 <= i < |s.jobs| ensures JobOk(after, i) { assert JobOk(s, i); }
    forall c, d | 0 <= c < |s.chains| && 0 <= d < |s.chains[c]| ensures LinkOk(after, c, d) { assert LinkOk(s, c, d); }
  }

  lemma ChainKeeps(s: State, j: JobId, pending: set<TaskId>)
    requires InvWith(s, pending) && j < |s.jobs| && s.jobs[j].pc == Chaining
    requires s.jobs[j].outcome == COMPLETED && Chains(s.jobs[j].payload)
    requires s.jobs[j].task < |s.tasks| && s.tasks[s.jobs[j].task].chain < |s.chains|
    ensures InvWith(ChainStep(s, j, true), pending)
  {
    var after := ChainStep(s, j, true);
    var t := s.jobs[j].task;
    var c0 := s.tasks[t].chain;
    assert JobOk(s, j) && TaskOk(s, t, pending) && LinkOk(s, c0, s.tasks[t].depth);
    assert s.tasks[t].depth + 1 == |s.chains[c0]|;
    forall u | 0 <= u < |after.tasks| ensures TaskOk(after, u, pending) {
      if u < |s.tasks| { assert TaskOk(s, u, pending); }
    }
    forall i | 0 <= i < |after.jobs| ensures JobOk(after, i) { assert JobOk(s, i); }
    forall c, d | 0 <= c < |after.chains| && 0 <= d < |after.chains[c]| ensures LinkOk(after, c, d) {
      if d < |s.chains[c]| { assert LinkOk(s, c, d) && TaskOk(s, s.chains[c][d], pending); }
    }
  }

  lemma HookKeeps(s: State, j: JobId, enqueues: bool, pending: set<TaskId>)
    requires InvWith(s, pending) && j < |s.jobs|
    ensures InvWith(HookStep(s, j, enqueues), pending)
  {
    var job, after := s.jobs[j], HookStep(s, j, enqueues);
    assert JobOk(s, j) && TaskOk(s, job.task, pending);
    match job.pc
    case Chaining =>
      if job.outcome == COMPLETED && Chains(job.payload) {
        if enqueues { ChainKeeps(s, j, pending); } else { MoveKeeps(s, after, j, CleaningInput, EnqueueFailed, pending); }
      } else {
        MoveKeeps(s, after, j, CleaningInput, NothingToEnqueue, pending);
      }
    case CleaningInput => MoveKeeps(s, after, j, CleaningOutput, job.link, pending);
    case CleaningOutput => MoveKeeps(s, after, j, Finished, job.link, pending);
    case Finished =>
  }

  /** Steps that leave the sweep alone and the rows it closed as they are. */
  lemma SweepKept(s: State, after: State)
    requires Inv(s) && after.sweep == s.sweep && |s.tasks| <= |after.tasks|
    requires forall t :: 0 <= t < |s.tasks| && s.tasks[t].status == FAILED ==>
      after.tasks[t].status == FAILED && after.tasks[t].error == s.tasks[t].error
    requires InvWith(after, Pending(s))
    ensures Inv(after)
  {
  }

  lemma HookKeepsAll(s: State, j: JobId, enqueues: bool)
    requires Inv(s) && j < |s.jobs|
    ensures Inv(HookStep(s, j, enqueues))
  {
    HookKeeps(s, j, enqueues, Pending(s));
    SweepKept(s, HookStep(s, j, enqueues));
  }

  lemma PollKeepsAll(s: State, server: ServerId, ids: seq<TaskId>)
    requires Inv(s) && Claims(s, server, ids)
    ensures Inv(PollStep(s, ids))
  {
    PollKeeps(s, server, ids, Pending(s));
    SweepKept(s, PollStep(s, ids));
  }

  lemma EnqueueKeepsAll(s: State, server: ServerId, kind: Kind, payload: Payload)
    requires Inv(s)
    ensures Inv(EnqueueStep(s, server, kind, payload))
  {
    EnqueueKeeps(s, server, kind, payload, Pending(s));
    SweepKept(s, EnqueueStep(s, server, kind, payload));
  }

  lemma StepKeeps(s: State, e: Event)
    requires Inv(s) && LandsOpen(s, e) && RereadIsOwn(s, e)
    ensures Inv(Step(s, e))
  {
    if Step(s, e) != s {
      match e
      case Enqueue(server, kind, payload) => EnqueueKeepsAll(s, server, kind, payload);
      case Poll(server, ids) => PollKeepsAll(s, server, ids);
      case FullReport(t, _, completed, error) => WriteResultKeeps(s, t, completed, error);
      case WriteReport(r) =>
        var closed := WriteResult(s, s.reports[r].task, s.reports[r].completed, s.reports[r].error);
        WriteResultKeeps(s, s.reports[r].task, s.reports[r].completed, s.reports[r].error);
        SameRecord(closed, Step(s, e), Pending(s));
      case UpdateStale => UpdateKeeps(s);
      case RereadStale => RereadKeeps(s);
      case Hook(j, enqueues) => HookKeepsAll(s, j, enqueues);
      case _ => SameRecord(s, Step(s, e), Pending(s));
    }
  }

  lemma {:induction false} RunKeeps(s: State, events: seq<Event>)
    requires Inv(s) && WritesLandOpen(s, events) && RereadsAreOwn(s, events)
    ensures Inv(Run(s, events))
    decreases |events|
  {
    if events != [] {
      StepKeeps(s, events[0]);
      RunKeeps(Step(s, events[0]), events[1..]);
    }
  }

  // ── hand-outs ───────────────────────────────────────────────────────

  lemma {:induction false} OweSweptKeepsRows(s: State, stale: seq<TaskId>)
    ensures var after := OweSwept(s, stale);
            && after.handed == s.handed && |after.tasks| == |s.tasks| && s.jobs <= after.jobs
            && after.chains == s.chains && after.dirs == s.dirs && after.uploaded == s.uploaded && after.reports == s.reports
            && forall t :: 0 <= t < |s.tasks| ==> after.tasks[t] == s.tasks[t].(job := after.tasks[t].job)
    decreases |stale|
  {
    if stale != [] {
      OweSweptKeepsRows(if LooksSwept(s, stale[0]) then Owe(s, stale[0]) else s, stale[1..]);
    }
  }

  lemma HandedKeeps(s: State, e: Event)
    requires HandedOk(s)
    ensures HandedOk(Step(s, e))
  {
    if e.RereadStale? && s.sweep.Updated? {
      OweSweptKeepsRows(s.(sweep := NoSweep), s.sweep.stale);
      forall i | 0 <= i < |s.handed| ensures Step(s, e).tasks[s.handed[i]].status != QUEUED {
      }
    }
  }

  /** MAIN RESULT. Whatever the reports and sweeps do, a task is handed out at most once. */
  lemma {:induction false} HandedOutAtMostOnce(s: State, events: seq<Event>)
    requires HandedOk(s)
    ensures Distinct(Run(s, events).handed)
    decreases |events|
  {
    if events != [] {
      HandedKeeps(s, events[0]);
      HandedOutAtMostOnce(Step(s, events[0]), events[1..]);
    }
  }

  // ── terminal rows ───────────────────────────────────────────────────

  ghost predicate SameVerdict(s: State, after: State, t: TaskId)
    requires t < |s.tasks|
  {
    t < |after.tasks| && after.tasks[t].status == s.tasks[t].status && after.tasks[t].error == s.tasks[t].error
  }

  lemma StepIsFinal(s: State, e: Event, t: TaskId)
    requires LandsOpen(s, e) && t < |s.tasks| && Terminal(s.tasks[t].status)
    ensures SameVerdict(s, Step(s, e), t)
  {
    if e.RereadStale? && s.sweep.Updated? { OweSweptKeepsRows(s.(sweep := NoSweep), s.sweep.stale); }
  }

  /** While no report writes over a terminal row, terminal states are final. */
  lemma {:induction false} TerminalIsFinal(s: State, events: seq<Event>, t: TaskId)
    requires WritesLandOpen(s, events) && t < |s.tasks| && Terminal(s.tasks[t].status)
    ensures SameVerdict(s, Run(s, events), t)
    decreases |events|
  {
    if events != [] {
      StepIsFinal(s, events[0], t);
      TerminalIsFinal(Step(s, events[0]), events[1..], t);
    }
  }

  /** A report of `t` in flight that says something else than the row does. */
  predicate Disagrees(s: State, r: ReportId, t: TaskId)
    requires t < |s.tasks|
  {
    && r in s.reports && s.reports[r].task == t
    && !(s.tasks[t].status == (if s.reports[r].completed then COMPLETED else FAILED) && s.tasks[t].error == s.reports[r].error)
  }

  /** The row says what it says now in every state of the run. */
  ghost predicate KeepsVerdict(s: State, events: seq<Event>, t: TaskId)
    requires t < |s.tasks|
    decreases |events|
  {
    events != [] ==>
      SameVerdict(s, Step(s, events[0]), t) && KeepsVerdict(Step(s, events[0]), events[1..], t)
  }

  lemma StepChangesVerdictExactlyWhen(s: State, e: Event, t: TaskId)
    requires t < |s.tasks| && Terminal(s.tasks[t].status)
    ensures t < |Step(s, e).tasks|
    ensures SameVerdict(s, Step(s, e), t) <==> !(e.WriteReport? && Disagrees(s, e.report, t))
    ensures SameVerdict(s, Step(s, e), t) ==> forall r :: Disagrees(Step(s, e), r, t) <==> Disagrees(s, r, t)
  {
    if e.RereadStale? && s.sweep.Updated? { OweSweptKeepsRows(s.(sweep := NoSweep), s.sweep.stale); }
  }

  /** From a state where the row is terminal it keeps its verdict if and only if no report in flight that
      disagrees is written: sweeps, retries and one-step reports never change it. */
  lemma {:induction false} FinalExactlyWhenAgreed(s: State, events: seq<Event>, t: TaskId)
    requires t < |s.tasks| && Terminal(s.tasks[t].status)
    ensures KeepsVerdict(s, events, t) <==> forall r :: Disagrees(s, r, t) ==> WriteReport(r) !in events
    decreases |events|
  {
    if events != [] {
      var e, rest := events[0], events[1..];
      assert forall x :: x in events <==> x == e || x in rest;
      StepChangesVerdictExactlyWhen(s, e, t);
      if SameVerdict(s, Step(s, e), t) { FinalExactlyWhenAgreed(Step(s, e), rest, t); }
    }
  }

  /** The `i`th event read the row of `t` while it was open, for a report that has not been written since. */
  ghost predicate ReadAt(clock: Time, events: seq<Event>, i: nat, r: ReportId, report: Report)
    requires i < |events|
  {
    var s, e := Run(Init(clock), events[..i]), events[i];
    && e.ReadReport? && e.report == r && Report(e.task, e.completed, e.error) == report
    && Accepts(s, e.task, e.server) && r !in s.reports && WriteReport(r) !in events[i + 1..]
  }

  lemma StepReads(s: State, e: Event, r: ReportId)
    requires forall q :: q in s.reports ==> s.reports[q].task < |s.tasks|
    ensures var after := Step(s, e);
            && (forall q :: q in after.reports ==> after.reports[q].task < |after.tasks|)
            && (e == WriteReport(r) ==> r !in after.reports)
            && (e != WriteReport(r) && r in s.reports ==> r in after.reports && after.reports[r] == s.reports[r])
            && (e != WriteReport(r) && r !in s.reports ==>
                  (r in after.reports <==> e.ReadReport? && e.report == r && Accepts(s, e.task, e.server)))
            && (r in after.reports && r !in s.reports ==> after.reports[r] == Report(e.task, e.completed, e.error))
  {
    if e.RereadStale? && s.sweep.Updated? { OweSweptKeepsRows(s.(sweep := NoSweep), s.sweep.stale); }
  }

  /** The reports in flight are those whose read found the row open and whose write is still to come. */
  lemma {:induction false} InFlightExactlyWhenRead(clock: Time, events: seq<Event>, r: ReportId, report: Report)
    ensures var s := Run(Init(clock), events);
            && (forall q :: q in s.reports ==> s.reports[q].task < |s.tasks|)
            && (r in s.reports && s.reports[r] == report <==> exists i :: 0 <= i < |events| && ReadAt(clock, events, i, r, report))
    decreases |events|
  {
    if events != [] {
      var last := |events| - 1;
      var init, e := events[..last], events[last];
      var s := Run(Init(clock), init);
      assert events == init + [e];
      RunConcat(Init(clock), init, [e]);
      assert Run(s, [e]) == Step(s, e);
      InFlightExactlyWhenRead(clock, init, r, report);
      StepReads(s, e, r);
      forall i | 0 <= i < last
        ensures ReadAt(clock, events, i, r, report) <==> ReadAt(clock, init, i, r, report) && e != WriteReport(r)
      {
        assert events[..i] == init[..i] && events[i + 1..] == init[i + 1..] + [e];
      }
      if e.ReadReport? && e.report == r && r !in s.reports && Accepts(s, e.task, e.server) && Report(e.task, e.completed, e.error) == report {
        assert ReadAt(clock, events, last, r, report);
      }
    }
  }

  /** A report that read the row while it was open and is written after another one, or a sweep, closed it with
      a different verdict. */
  ghost predicate Straggler(clock: Time, before: seq<Event>, after: seq<Event>, i: nat, r: ReportId, report: Report)
    requires i < |before|
  {
    var s := Run(Init(clock), before);
    && ReadAt(clock, before, i, r, report) && WriteReport(r) in after && report.task < |s.tasks|
    && !(s.tasks[report.task].status == (if report.completed then COMPLETED else FAILED)
         && s.tasks[report.task].error == report.error)
  }

  /** MAIN RESULT. Over any run, split reports included, a row that is terminal after `before` says the same in
      every later state if and only if `after` has no straggler of its. */
  lemma VerdictIsFinalExactlyWhen(clock: Time, before: seq<Event>, after: seq<Event>, t: TaskId)
    requires var s := Run(Init(clock), before); t < |s.tasks| && Terminal(s.tasks[t].status)
    ensures KeepsVerdict(Run(Init(clock), before), after, t) <==>
              !exists i, r, report :: 0 <= i < |before| && Straggler(clock, before, after, i, r, report) && report.task == t
  {
    var s := Run(Init(clock), before);
    FinalExactlyWhenAgreed(s, after, t);
    forall r | Disagrees(s, r, t) && WriteReport(r) in after
      ensures exists i :: 0 <= i < |before| && Straggler(clock, before, after, i, r, s.reports[r])
    {
      InFlightExactlyWhenRead(clock, before, r, s.reports[r]);
      var i :| 0 <= i < |before| && ReadAt(clock, before, i, r, s.reports[r]);
      assert Straggler(clock, before, after, i, r, s.reports[r]);
    }
    forall i, r, report | 0 <= i < |before| && Straggler(clock, before, after, i, r, report) && report.task == t
      ensures Disagrees(s, r, t) && WriteReport(r) in after
    {
      InFlightExactlyWhenRead(clock, before, r, report);
    }
  }

  /** A report sent again changes nothing, whatever it says now: the agent may retry blindly. */
  lemma RetryChangesNothing(s: State, t: TaskId, server: ServerId, completed: bool, error: Option<string>,
                            again: bool, newError: Option<string>)
    requires Accepts(s, t, server)
    ensures var once := Step(s, FullReport(t, server, completed, error));
            && Step(once, FullReport(t, server, again, newError)) == once
            && once.tasks[t].status == (if completed then COMPLETED else FAILED)
  {
    assert Step(s, FullReport(t, server, completed, error)).tasks[t].status == (if completed then COMPLETED else FAILED);
  }

  // ── termination hooks ───────────────────────────────────────────────

  /** No two runs of handleTaskTermination are for the same task. */
  ghost predicate HooksOnce(s: State) {
    forall i, j :: 0 <= i < j < |s.jobs| ==> s.jobs[i].task != s.jobs[j].task
  }

  lemma InvMeansHooksOnce(s: State)
    requires Inv(s)
    ensures HooksOnce(s)
  {
    forall i, j | 0 <= i < j < |s.jobs| ensures s.jobs[i].task != s.jobs[j].task {
      assert JobOk(s, i) && JobOk(s, j);
    }
  }

  /** Jobs are never dropped, and each stays with its task. */
  ghost predicate JobsKept(s: State, after: State) {
    |s.jobs| <= |after.jobs| && forall j :: 0 <= j < |s.jobs| ==> after.jobs[j].task == s.jobs[j].task
  }

  lemma StepKeepsJobs(s: State, e: Event)
    ensures JobsKept(s, Step(s, e))
  {
    if e.RereadStale? && s.sweep.Updated? { OweSweptKeepsRows(s.(sweep := NoSweep), s.sweep.stale); }
  }

  lemma {:induction false} RunKeepsJobs(s: State, events: seq<Event>)
    ensures JobsKept(s, Run(s, events))
    decreases |events|
  {
    if events != [] {
      StepKeepsJobs(s, events[0]);
      RunKeepsJobs(Step(s, events[0]), events[1..]);
    }
  }

  lemma {:induction false} SweptIsOwed(s: State, stale: seq<TaskId>, t: TaskId) returns (j: JobId)
    requires t in stale && LooksSwept(s, t)
    ensures var after := OweSwept(s, stale); |s.jobs| <= j < |after.jobs| && after.jobs[j].task == t
    decreases |stale|
  {
    var next := if LooksSwept(s, stale[0]) then Owe(s, stale[0]) else s;
    OweSweptKeepsRows(next, stale[1..]);
    if stale[0] == t {
      j := |s.jobs|;
      assert next.jobs[j].task == t;
      assert OweSwept(s, stale).jobs[j] == next.jobs[j];
    } else {
      assert t in stale[1..];
      j := SweptIsOwed(next, stale[1..], t);
    }
  }

  /** What every run keeps, whatever the reports do: a job is on record for a row exactly when the row knows
      of one, and then the row is terminal. */
  ghost predicate Tracked(s: State) {
    && (forall j :: 0 <= j < |s.jobs| ==> s.jobs[j].task < |s.tasks| && s.tasks[s.jobs[j].task].job.Some?)
    && (forall t :: 0 <= t < |s.tasks| && s.tasks[t].job.Some? ==> TracksJob(s, t, s.tasks[t].job.value))
    && (s.sweep.Selected? ==> Distinct(s.sweep.stale)) && (s.sweep.Updated? ==> Distinct(s.sweep.stale))
  }

  ghost predicate TracksJob(s: State, t: TaskId, j: JobId)
    requires t < |s.tasks|
  {
    Terminal(s.tasks[t].status) && j < |s.jobs| && s.jobs[j].task == t
  }

  lemma InvIsTracked(s: State)
    requires Inv(s)
    ensures Tracked(s)
  {
    forall j | 0 <= j < |s.jobs| ensures s.jobs[j].task < |s.tasks| && s.tasks[s.jobs[j].task].job.Some? {
      assert JobOk(s, j);
    }
    forall t | 0 <= t < |s.tasks| && s.tasks[t].job.Some? ensures TracksJob(s, t, s.tasks[t].job.value) {
      assert TaskOk(s, t, Pending(s)) && JobOk(s, s.tasks[t].job.value);
    }
  }

  lemma OweTracks(s: State, t: TaskId)
    requires Tracked(s) && t < |s.tasks| && Terminal(s.tasks[t].status)
    ensures Tracked(Owe(s, t))
  {
    var after := Owe(s, t);
    forall u | 0 <= u < |after.tasks| && after.tasks[u].job.Some? ensures TracksJob(after, u, after.tasks[u].job.value) {
      assert u != t ==> TracksJob(s, u, s.tasks[u].job.value);
    }
  }

  lemma CloseTracks(s: State, t: TaskId, status: Status, error: Option<string>)
    requires Tracked(s) && t < |s.tasks| && Terminal(status)
    ensures Tracked(s.(tasks := s.tasks[t := s.tasks[t].(status := status, error := error)]))
  {
    var after := s.(tasks := s.tasks[t := s.tasks[t].(status := status, error := error)]);
    forall u | 0 <= u < |after.tasks| && after.tasks[u].job.Some? ensures TracksJob(after, u, after.tasks[u].job.value) {
      assert TracksJob(s, u, s.tasks[u].job.value);
    }
  }

  lemma {:induction false} OweSweptTracks(s: State, stale: seq<TaskId>)
    requires Tracked(s)
    ensures Tracked(OweSwept(s, stale))
    decreases |stale|
  {
    if stale != [] {
      if LooksSwept(s, stale[0]) { OweTracks(s, stale[0]); }
      OweSweptTracks(if LooksSwept(s, stale[0]) then Owe(s, stale[0]) else s, stale[1..]);
    }
  }

  /** Steps that add rows, change open rows or move jobs along. */
  lemma TracksFramed(s: State, after: State)
    requires Tracked(s) && |s.tasks| <= |after.tasks| && |after.jobs| == |s.jobs|
    requires forall t :: 0 <= t < |s.tasks| ==>
      after.tasks[t].job == s.tasks[t].job && (Terminal(s.tasks[t].status) ==> Terminal(after.tasks[t].status))
    requires forall t :: |s.tasks| <= t < |after.tasks| ==> after.tasks[t].job.None?
    requires forall j :: 0 <= j < |s.jobs| ==> after.jobs[j].task == s.jobs[j].task
    requires (after.sweep.Selected? ==> Distinct(after.sweep.stale)) && (after.sweep.Updated? ==> Distinct(after.sweep.stale))
    ensures Tracked(after)
  {
    forall t | 0 <= t < |after.tasks| && after.tasks[t].job.Some? ensures TracksJob(after, t, after.tasks[t].job.value) {
      assert TracksJob(s, t, s.tasks[t].job.value);
    }
  }

  lemma HookTracks(s: State, j: JobId, enqueues: bool)
    requires Tracked(s) && j < |s.jobs|
    ensures Tracked(HookStep(s, j, enqueues))
  {
    TracksFramed(s, HookStep(s, j, enqueues));
  }

  lemma UpdateTracks(s: State)
    requires Tracked(s) && s.sweep.Selected?
    ensures Tracked(UpdateStep(s, s.sweep.stale))
  {
    TracksFramed(s, UpdateStep(s, s.sweep.stale));
  }

  lemma StepTracks(s: State, e: Event)
    requires Tracked(s)
    ensures Tracked(Step(s, e))
  {
    if Step(s, e) != s {
      match e
      case FullReport(t, _, completed, error) => WriteTracks(s, t, completed, error);
      case WriteReport(r) =>
        var report := s.reports[r];
        WriteTracks(s, report.task, report.completed, report.error);
        TracksFramed(WriteResult(s, report.task, report.completed, report.error), Step(s, e));
      case UpdateStale => UpdateTracks(s);
      case RereadStale =>
        TracksFramed(s, s.(sweep := NoSweep));
        OweSweptTracks(s.(sweep := NoSweep), s.sweep.stale);
      case Hook(j, enqueues) => HookTracks(s, j, enqueues);
      case _ => TracksFramed(s, Step(s, e));
    }
  }

  lemma WriteTracks(s: State, t: TaskId, completed: bool, error: Option<string>)
    requires Tracked(s) && t < |s.tasks|
    ensures Tracked(WriteResult(s, t, completed, error))
  {
    var status := if completed then COMPLETED else FAILED;
    CloseTracks(s, t, status, error);
    OweTracks(s.(tasks := s.tasks[t := s.tasks[t].(status := status, error := error)]), t);
  }

  /** No hook is owed to a row that has its job already: the write of a report meets a row without one, and
      so does every row a sweep re-reads. */
  ghost predicate OwesFresh(s: State, e: Event) {
    && (e.WriteReport? && e.report in s.reports && s.reports[e.report].task < |s.tasks| ==>
          s.tasks[s.reports[e.report].task].job.None?)
    && (e.RereadStale? && s.sweep.Updated? && s.sweep.swept != {} ==>
          forall t :: t in s.sweep.stale && LooksSwept(s, t) ==> s.tasks[t].job.None?)
  }

  ghost predicate OwesFreshOnly(s: State, events: seq<Event>)
    decreases |events|
  {
    events != [] ==> OwesFresh(s, events[0]) && OwesFreshOnly(Step(s, events[0]), events[1..])
  }

  lemma OweKeepsOnce(s: State, t: TaskId)
    requires Tracked(s) && HooksOnce(s) && t < |s.tasks| && s.tasks[t].job.None?
    ensures HooksOnce(Owe(s, t))
  {
    assert forall j :: 0 <= j < |s.jobs| ==> s.jobs[j].task != t;
  }

  lemma {:induction false} OweSweptKeepsOnce(s: State, stale: seq<TaskId>)
    requires Tracked(s) && HooksOnce(s) && Distinct(stale)
    requires forall t :: t in stale && LooksSwept(s, t) ==> s.tasks[t].job.None?
    ensures HooksOnce(OweSwept(s, stale))
    decreases |stale|
  {
    if stale != [] {
      var t, rest := stale[0], stale[1..];
      assert forall u :: u in stale <==> u == t || u in rest;
      assert t !in rest;
      if LooksSwept(s, t) {
        OweKeepsOnce(s, t);
        OweTracks(s, t);
      }
      OweSweptKeepsOnce(if LooksSwept(s, t) then Owe(s, t) else s, rest);
    }
  }

  lemma RereadKeepsOnce(s: State)
    requires Tracked(s) && HooksOnce(s) && OwesFresh(s, RereadStale)
    ensures HooksOnce(Step(s, RereadStale))
  {
    if s.sweep.Updated? && s.sweep.swept != {} {
      var rest := s.(sweep := NoSweep);
      TracksFramed(s, rest);
      OweSweptKeepsOnce(rest, s.sweep.stale);
    }
  }

  lemma HookKeepsOnce(s: State, j: JobId, enqueues: bool)
    requires HooksOnce(s) && j < |s.jobs|
    ensures HooksOnce(HookStep(s, j, enqueues))
  {
  }

  lemma FreshKeepsOnce(s: State, e: Event)
    requires Tracked(s) && HooksOnce(s) && OwesFresh(s, e)
    ensures HooksOnce(Step(s, e))
  {
    if Step(s, e) != s {
      match e
      case FullReport(t, _, completed, error) =>
        assert s.tasks[t].job.Some? ==> TracksJob(s, t, s.tasks[t].job.value);
        WriteKeepsOnce(s, t, completed, error);
      case WriteReport(r) => WriteKeepsOnce(s, s.reports[r].task, s.reports[r].completed, s.reports[r].error);
      case RereadStale => RereadKeepsOnce(s);
      case Hook(j, enqueues) => HookKeepsOnce(s, j, enqueues);
      case _ =>
    }
  }

  lemma WriteKeepsOnce(s: State, t: TaskId, completed: bool, error: Option<string>)
    requires Tracked(s) && HooksOnce(s) && t < |s.tasks| && s.tasks[t].job.None?
    ensures HooksOnce(WriteResult(s, t, completed, error))
  {
    var status := if completed then COMPLETED else FAILED;
    CloseTracks(s, t, status, error);
    OweKeepsOnce(s.(tasks := s.tasks[t := s.tasks[t].(status := status, error := error)]), t);
  }

  lemma StaleOwesTwice(s: State, e: Event)
    requires Tracked(s) && !OwesFresh(s, e)
    ensures !HooksOnce(Step(s, e))
  {
    var after := Step(s, e);
    if e.WriteReport? {
      var t := s.reports[e.report].task;
      assert TracksJob(s, t, s.tasks[t].job.value);
      assert after.jobs[s.tasks[t].job.value].task == t == after.jobs[|s.jobs|].task;
    } else {
      var t :| t in s.sweep.stale && LooksSwept(s, t) && s.tasks[t].job.Some?;
      var rest := s.(sweep := NoSweep);
      assert TracksJob(s, t, s.tasks[t].job.value);
      var second := SweptIsOwed(rest, s.sweep.stale, t);
      OweSweptKeepsRows(rest, s.sweep.stale);
      assert after.jobs[s.tasks[t].job.value].task == t == after.jobs[second].task;
    }
  }

  lemma {:induction false} OnceExactlyWhenFresh(s: State, events: seq<Event>)
    requires Tracked(s) && HooksOnce(s)
    ensures HooksOnce(Run(s, events)) <==> OwesFreshOnly(s, events)
    decreases |events|
  {
    if events != [] {
      var next := Step(s, events[0]);
      StepTracks(s, events[0]);
      if OwesFresh(s, events[0]) {
        FreshKeepsOnce(s, events[0]);
        OnceExactlyWhenFresh(next, events[1..]);
      } else {
        StaleOwesTwice(s, events[0]);
        RunKeepsJobs(next, events[1..]);
        var i, j :| 0 <= i < j < |next.jobs| && next.jobs[i].task == next.jobs[j].task;
        assert Run(next, events[1..]).jobs[i].task == Run(next, events[1..]).jobs[j].task;
      }
    }
  }

  /** MAIN RESULT. Over any run, split reports, forged texts and late reports included, the termination hooks
      run at most once per task if and only if every report that writes and every row a sweep re-reads
      meets a row whose hooks are not owed yet. */
  lemma HooksRunOnceExactlyWhen(clock: Time, events: seq<Event>)
    ensures HooksOnce(Run(Init(clock), events)) <==> OwesFreshOnly(Init(clock), events)
  {
    OnceExactlyWhenFresh(Init(clock), events);
  }

  // ── what holds as long as the hooks run once ────────────────────────

  /** The closed rows whose hooks are not owed yet. */
  ghost function Unowed(s: State): set<TaskId> {
    set t: TaskId | t < |s.tasks| && Terminal(s.tasks[t].status) && s.tasks[t].job.None?
  }

  /** The invariant without what it says about sweeps: rows, jobs and chains agree. */
  ghost predicate Sound(s: State) {
    && InvWith(s, Unowed(s))
    && (s.sweep.Selected? ==> Distinct(s.sweep.stale)) && (s.sweep.Updated? ==> Distinct(s.sweep.stale))
  }

  lemma PendingIsUnowed(s: State, pending: set<TaskId>)
    requires InvWith(s, pending)
    ensures pending == Unowed(s)
  {
    forall t: TaskId | t < |s.tasks| ensures t in pending <==> t in Unowed(s) { assert TaskOk(s, t, pending); }
  }

  lemma {:induction false} OweFreshKeeps(s: State, stale: seq<TaskId>)
    requires InvWith(s, Unowed(s)) && Distinct(stale)
    requires forall t :: t in stale && LooksSwept(s, t) ==> s.tasks[t].job.None?
    ensures InvWith(OweSwept(s, stale), Unowed(OweSwept(s, stale)))
    decreases |stale|
  {
    if stale != [] {
      var t, rest := stale[0], stale[1..];
      assert forall u :: u in stale <==> u == t || u in rest;
      assert t !in rest;
      if LooksSwept(s, t) {
        OweKeeps(s, t, Unowed(s));
        PendingIsUnowed(Owe(s, t), Unowed(s) - {t});
      }
      OweFreshKeeps(if LooksSwept(s, t) then Owe(s, t) else s, rest);
    }
  }

  lemma RereadStaysSound(s: State)
    requires Sound(s) && s.sweep.Updated? && OwesFresh(s, RereadStale)
    ensures Sound(RereadStep(s))
  {
    var rest := s.(sweep := NoSweep);
    SameRecord(s, rest, Unowed(s));
    assert Unowed(rest) == Unowed(s);
    if s.sweep.swept != {} {
      OweFreshKeeps(rest, s.sweep.stale);
      OweSweptKeepsSweep(rest, s.sweep.stale);
    }
  }

  lemma ResultStaysSound(s: State, t: TaskId, completed: bool, error: Option<string>)
    requires Sound(s) && t < |s.tasks| && s.tasks[t].job.None?
    ensures Sound(WriteResult(s, t, completed, error))
  {
    ResultKeeps(s, t, completed, error, Unowed(s));
    PendingIsUnowed(WriteResult(s, t, completed, error), Unowed(s) - {t});
  }

  lemma FrameStaysSound(s: State, after: State)
    requires Sound(s)
    requires after.tasks == s.tasks && after.chains == s.chains && after.jobs == s.jobs && after.handed == s.handed
    requires (after.sweep.Selected? ==> Distinct(after.sweep.stale)) && (after.sweep.Updated? ==> Distinct(after.sweep.stale))
    ensures Sound(after)
  {
    SameRecord(s, after, Unowed(s));
    PendingIsUnowed(after, Unowed(s));
  }

  lemma StepStaysSound(s: State, e: Event)
    requires Sound(s) && OwesFresh(s, e)
    ensures Sound(Step(s, e))
  {
    var after, unowed := Step(s, e), Unowed(s);
    if after != s {
      match e
      case Enqueue(server, kind, payload) =>
        EnqueueKeeps(s, server, kind, payload, unowed);
        PendingIsUnowed(after, unowed);
      case Poll(server, ids) =>
        PollKeeps(s, server, ids, unowed);
        PendingIsUnowed(after, unowed);
      case FullReport(t, _, completed, error) =>
        OpenHasNoJob(s, unowed, t);
        ResultStaysSound(s, t, completed, error);
      case WriteReport(r) =>
        ResultStaysSound(s, s.reports[r].task, s.reports[r].completed, s.reports[r].error);
        FrameStaysSound(WriteResult(s, s.reports[r].task, s.reports[r].completed, s.reports[r].error), after);
      case UpdateStale =>
        CloseStaleKeeps(s, s.sweep.stale, unowed);
        PendingIsUnowed(after, unowed + after.sweep.swept);
      case RereadStale => RereadStaysSound(s);
      case Hook(j, enqueues) =>
        HookKeeps(s, j, enqueues, unowed);
        PendingIsUnowed(after, unowed);
      case _ => FrameStaysSound(s, after);
    }
  }

  /** However reports are split and whatever they say: as long as the hooks run once, rows, jobs and chains agree. */
  lemma {:induction false} RunStaysSound(s: State, events: seq<Event>)
    requires Sound(s) && OwesFreshOnly(s, events)
    ensures Sound(Run(s, events))
    decreases |events|
  {
    if events != [] {
      StepStaysSound(s, events[0]);
      RunStaysSound(Step(s, events[0]), events[1..]);
    }
  }

  // ── when the conditions hold ────────────────────────────────────────

  /** A FAILED report whose text is the sweep's own. */
  predicate Forges(completed: bool, error: Option<string>) {
    !completed && error == Some(SWEEP_ERROR)
  }

  ghost predicate Forgery(e: Event) {
    (e.FullReport? || e.ReadReport?) && Forges(e.completed, e.error)
  }

  ghost predicate Unforged(s: State) {
    && (forall r :: r in s.reports ==> !Forges(s.reports[r].completed, s.reports[r].error))
    && match s.sweep
       case NoSweep => true
       case Selected(stale) => forall t :: t in stale ==> !LooksSwept(s, t)
       case Updated(stale, swept) => forall t :: t in stale && LooksSwept(s, t) ==> t in swept
  }

  lemma StepStaysUnforged(s: State, e: Event)
    requires Unforged(s) && !Forgery(e)
    requires s.sweep.Selected? ==> forall t :: t in s.sweep.stale ==> t < |s.tasks|
    requires s.sweep.Updated? ==> forall t :: t in s.sweep.stale ==> t < |s.tasks|
    ensures Unforged(Step(s, e)) && RereadIsOwn(s, e)
    ensures var after := Step(s, e);
            && (after.sweep.Selected? ==> forall t :: t in after.sweep.stale ==> t < |after.tasks|)
            && (after.sweep.Updated? ==> forall t :: t in after.sweep.stale ==> t < |after.tasks|)
  {
    if e.RereadStale? && s.sweep.Updated? {
      OweSweptKeepsRows(s.(sweep := NoSweep), s.sweep.stale);
      OweSweptKeepsSweep(s.(sweep := NoSweep), s.sweep.stale);
    }
  }

  /** No agent reports the sweep's own text: then sweeps re-read their own rows only. */
  lemma {:induction false} UnforgedRereadsAreOwn(s: State, events: seq<Event>)
    requires Unforged(s) && forall e :: e in events ==> !Forgery(e)
    requires s.sweep.Selected? ==> forall t :: t in s.sweep.stale ==> t < |s.tasks|
    requires s.sweep.Updated? ==> forall t :: t in s.sweep.stale ==> t < |s.tasks|
    ensures RereadsAreOwn(s, events)
    decreases |events|
  {
    if events != [] {
      StepStaysUnforged(s, events[0]);
      UnforgedRereadsAreOwn(Step(s, events[0]), events[1..]);
    }
  }

  /** What a caller can see to: while a report of a task has been read and not written, no other report of the
      task is read, and no sweep closes it. */
  ghost predicate Undisturbed(s: State, e: Event) {
    && (e.FullReport? || e.ReadReport? ==> forall r :: r in s.reports ==> s.reports[r].task != e.task)
    && (e.UpdateStale? && s.sweep.Selected? ==> forall r :: r in s.reports ==> s.reports[r].task !in s.sweep.stale)
  }

  ghost predicate AllUndisturbed(s: State, events: seq<Event>)
    decreases |events|
  {
    events != [] ==> Undisturbed(s, events[0]) && AllUndisturbed(Step(s, events[0]), events[1..])
  }

  /** The reports in flight are of different tasks, all open. */
  ghost predicate InFlightOpen(s: State) {
    && (forall r :: r in s.reports ==> Open(s, s.reports[r].task))
    && (forall r, q :: r in s.reports && q in s.reports && r != q ==> s.reports[r].task != s.reports[q].task)
  }

  lemma OpenFramed(s: State, after: State)
    requires InFlightOpen(s) && after.reports == s.reports && |s.tasks| <= |after.tasks|
    requires forall t :: 0 <= t < |s.tasks| && !Terminal(s.tasks[t].status) ==> !Terminal(after.tasks[t].status)
    ensures InFlightOpen(after)
  {
  }

  lemma HookKeepsStatus(s: State, j: JobId, enqueues: bool)
    requires j < |s.jobs|
    ensures var after := HookStep(s, j, enqueues);
            && after.reports == s.reports && |s.tasks| <= |after.tasks|
            && forall t :: 0 <= t < |s.tasks| ==> after.tasks[t].status == s.tasks[t].status
  {
  }

  lemma StepStaysInFlightOpen(s: State, e: Event)
    requires InFlightOpen(s) && Undisturbed(s, e)
    ensures InFlightOpen(Step(s, e)) && LandsOpen(s, e)
  {
    if Step(s, e) != s {
      match e
      case RereadStale =>
        OweSweptKeepsRows(s.(sweep := NoSweep), s.sweep.stale);
        OpenFramed(s, Step(s, e));
      case Hook(j, enqueues) =>
        HookKeepsStatus(s, j, enqueues);
        OpenFramed(s, Step(s, e));
      case ReadReport(_, _, _, _, _) =>
      case FullReport(_, _, _, _) =>
      case WriteReport(_) =>
      case UpdateStale =>
      case _ => OpenFramed(s, Step(s, e));
    }
  }

  /** Split reports that are not disturbed land on open rows. */
  lemma {:induction false} UndisturbedWritesLandOpen(s: State, events: seq<Event>)
    requires InFlightOpen(s) && AllUndisturbed(s, events)
    ensures WritesLandOpen(s, events)
    decreases |events|
  {
    if events != [] {
      StepStaysInFlightOpen(s, events[0]);
      UndisturbedWritesLandOpen(Step(s, events[0]), events[1..]);
    }
  }

  lemma {:induction false} RunConcat(s: State, a: seq<Event>, b: seq<Event>)
    ensures Run(s, a + b) == Run(Run(s, a), b)
    ensures WritesLandOpen(s, a + b) ==> WritesLandOpen(Run(s, a), b)
    decreases |a|
  {
    if a == [] {
      assert a + b == b;
    } else {
      assert (a + b)[1..] == a[1..] + b;
      RunConcat(Step(s, a[0]), a[1..], b);
    }
  }

  /** MAIN RESULT. Any interleaving of polls, reports (split, lost, repeated, late), hooks and non-overlapping
      sweeps in which no report in flight is disturbed and none forges the sweep's text: the invariant
      holds, no hook runs twice, and whatever was terminal on the way still says the same. */
  lemma ProtocolHolds(clock: Time, before: seq<Event>, after: seq<Event>, t: TaskId)
    requires AllUndisturbed(Init(clock), before + after) && forall e :: e in before + after ==> !Forgery(e)
    ensures var early, late := Run(Init(clock), before), Run(Init(clock), before + after);
            && Inv(late) && HooksOnce(late)
            && (t < |early.tasks| && Terminal(early.tasks[t].status) ==> SameVerdict(early, late, t))
  {
    var early := Run(Init(clock), before);
    UndisturbedWritesLandOpen(Init(clock), before + after);
    UnforgedRereadsAreOwn(Init(clock), before + after);
    RunKeeps(Init(clock), before + after);
    InvMeansHooksOnce(Run(Init(clock), before + after));
    RunConcat(Init(clock), before, after);
    if t < |early.tasks| && Terminal(early.tasks[t].status) { TerminalIsFinal(early, after, t); }
  }

  /** Without split reports none is ever in flight. */
  lemma {:induction false} OneStepReportsAreUndisturbed(s: State, events: seq<Event>)
    requires s.reports == map[] && forall e :: e in events ==> !e.ReadReport?
    ensures AllUndisturbed(s, events)
    decreases |events|
  {
    if events != [] {
      if events[0].RereadStale? && s.sweep.Updated? { OweSweptKeepsRows(s.(sweep := NoSweep), s.sweep.stale); }
      OneStepReportsAreUndisturbed(Step(s, events[0]), events[1..]);
    }
  }

  /** MAIN RESULT. With check-and-write as one step and no forged text, all of that holds of every run. */
  lemma OneStepProtocolHolds(clock: Time, before: seq<Event>, after: seq<Event>, t: TaskId)
    requires forall e :: e in before + after ==> !e.ReadReport? && !Forgery(e)
    ensures var early, late := Run(Init(clock), before), Run(Init(clock), before + after);
            && Inv(late) && HooksOnce(late)
            && (t < |early.tasks| && Terminal(early.tasks[t].status) ==> SameVerdict(early, late, t))
  {
    OneStepReportsAreUndisturbed(Init(clock), before + after);
    ProtocolHolds(clock, before, after, t);
  }

  // ── onComplete chains ───────────────────────────────────────────────

  function PayloadAt(s: State, c: nat, d: nat): Payload
    requires c < |s.chains| && d < |s.chains[c]| && s.chains[c][d] < |s.tasks|
  {
    s.tasks[s.chains[c][d]].payload
  }

  /** What chain `c` has enqueued after its first task, in order. */
  function Issued(s: State, c: nat, d: nat): (issued: seq<(ServerId, Kind)>)
    requires c < |s.chains| && d < |s.chains[c]| && forall i :: 0 <= i < |s.chains[c]| ==> s.chains[c][i] < |s.tasks|
    ensures |issued| == d
  {
    seq(d, i requires 0 <= i < d => (s.tasks[s.chains[c][i + 1]].server, s.tasks[s.chains[c][i + 1]].kind))
  }

  lemma ChainIdsAreTasks(s: State, c: nat)
    requires ChainsOk(s) && c < |s.chains|
    ensures s.chains[c] != [] && forall i :: 0 <= i < |s.chains[c]| ==> s.chains[c][i] < |s.tasks|
  {
    forall i | 0 <= i < |s.chains[c]| ensures s.chains[c][i] < |s.tasks| { assert LinkOk(s, c, i); }
  }

  lemma PlanMovesOn(plan: seq<(ServerId, Kind)>, issued: seq<(ServerId, Kind)>, chain: seq<Entry>, longer: seq<(ServerId, Kind)>)
    requires chain != [] && chain[0].Entry? && plan == issued + Plan(chain)
    requires longer == issued + [(chain[0].server, chain[0].kind)]
    ensures plan == longer + Plan(Rest(chain))
  {
  }

  lemma IssuedGrows(s: State, c: nat, d: nat)
    requires c < |s.chains| && 0 < d < |s.chains[c]| && forall i :: 0 <= i < |s.chains[c]| ==> s.chains[c][i] < |s.tasks|
    ensures Issued(s, c, d) == Issued(s, c, d - 1) + [(s.tasks[s.chains[c][d]].server, s.tasks[s.chains[c][d]].kind)]
  {
  }

  lemma {:induction false} PlanIsIssuedAndRemaining(s: State, c: nat, d: nat)
    requires ChainsOk(s) && c < |s.chains| && d < |s.chains[c]|
    requires forall i :: 0 <= i < |s.chains[c]| ==> s.chains[c][i] < |s.tasks|
    ensures Plan(PayloadAt(s, c, 0).chain) == Issued(s, c, d) + Plan(PayloadAt(s, c, d).chain)
  {
    if d == 0 {
      assert Issued(s, c, 0) == [];
    } else {
      PlanIsIssuedAndRemaining(s, c, d - 1);
      SuccessorPayload(s, c, d);
      IssuedGrows(s, c, d);
      PlanMovesOn(Plan(PayloadAt(s, c, 0).chain), Issued(s, c, d - 1), PayloadAt(s, c, d - 1).chain, Issued(s, c, d));
    }
  }

  lemma {:induction false} EntriesRunOut(s: State, c: nat, d: nat)
    requires ChainsOk(s) && c < |s.chains| && d < |s.chains[c]|
    requires forall i :: 0 <= i < |s.chains[c]| ==> s.chains[c][i] < |s.tasks|
    ensures Entries(PayloadAt(s, c, d).chain) + d <= Entries(PayloadAt(s, c, 0).chain)
  {
    if d > 0 {
      EntriesRunOut(s, c, d - 1);
      SuccessorPayload(s, c, d);
      RestIsSmaller(PayloadAt(s, c, d - 1).chain);
    }
  }

  lemma SuccessorPayload(s: State, c: nat, d: nat)
    requires ChainsOk(s) && c < |s.chains| && 0 < d < |s.chains[c]|
    requires forall i :: 0 <= i < |s.chains[c]| ==> s.chains[c][i] < |s.tasks|
    ensures var before := PayloadAt(s, c, d - 1);
            && Chains(before) && PayloadAt(s, c, d) == NextPayload(before, s.chains[c][d - 1])
            && s.tasks[s.chains[c][d]].server == before.chain[0].server
            && s.tasks[s.chains[c][d]].kind == before.chain[0].kind
  {
    assert LinkOk(s, c, d - 1);
  }

  /** MAIN RESULT. What a chain has enqueued is a prefix of its plan, in order; each task but
      the last has COMPLETED, so at most one is live; the nested entries bound the length;
      and a chain that ends on success has enqueued the whole plan. */
  lemma ChainFollowsPlan(s: State, c: nat)
    requires Inv(s) && c < |s.chains|
    ensures var chain := s.chains[c];
            && chain != [] && (forall i :: 0 <= i < |chain| ==> chain[i] < |s.tasks|)
            && Issued(s, c, |chain| - 1) <= Plan(PayloadAt(s, c, 0).chain)
            && |chain| <= 1 + Entries(PayloadAt(s, c, 0).chain)
            && (forall d :: 0 <= d < |chain| - 1 ==> s.tasks[chain[d]].status == COMPLETED)
            && var last := s.tasks[chain[|chain| - 1]];
               (last.status == COMPLETED && last.job.Some? && last.job.value < |s.jobs|
                && s.jobs[last.job.value].link == NothingToEnqueue ==>
                  Issued(s, c, |chain| - 1) == Plan(PayloadAt(s, c, 0).chain))
  {
    ChainIdsAreTasks(s, c);
    var chain := s.chains[c];
    PlanIsIssuedAndRemaining(s, c, |chain| - 1);
    EntriesRunOut(s, c, |chain| - 1);
    forall d | 0 <= d < |chain| - 1 ensures s.tasks[chain[d]].status == COMPLETED {
      assert LinkOk(s, c, d) && TaskOk(s, chain[d], Pending(s)) && JobOk(s, s.tasks[chain[d]].job.value);
    }
    var t := chain[|chain| - 1];
    assert TaskOk(s, t, Pending(s));
    assert s.tasks[t].job.Some? ==> JobOk(s, s.tasks[t].job.value);
  }

  /** The last task's hooks are past chaining and enqueued nothing. */
  ghost predicate Ended(s: State, c: nat)
    requires c < |s.chains|
  {
    && s.chains[c] != [] && var t := s.chains[c][|s.chains[c]| - 1];
    && t < |s.tasks| && s.tasks[t].job.Some? && s.tasks[t].job.value < |s.jobs|
    && s.jobs[s.tasks[t].job.value].link in {EnqueueFailed, NothingToEnqueue}
  }

  lemma HookStaysEnded(s: State, j: JobId, enqueues: bool, c: nat)
    requires Inv(s) && c < |s.chains| && Ended(s, c) && j < |s.jobs|
    ensures var after := HookStep(s, j, enqueues); c < |after.chains| && after.chains[c] == s.chains[c] && Ended(after, c)
  {
    var last, t := s.chains[c][|s.chains[c]| - 1], s.jobs[j].task;
    assert JobOk(s, j) && TaskOk(s, t, Pending(s)) && TaskOk(s, last, Pending(s));
    assert LinkOk(s, c, |s.chains[c]| - 1) && LinkOk(s, s.tasks[t].chain, s.tasks[t].depth);
    assert s.jobs[j].pc == Chaining ==> s.tasks[t].chain != c;
  }

  lemma WriteStaysEnded(s: State, t: TaskId, completed: bool, error: Option<string>, c: nat)
    requires Inv(s) && Open(s, t) && c < |s.chains| && Ended(s, c)
    ensures var after := WriteResult(s, t, completed, error);
            c < |after.chains| && after.chains[c] == s.chains[c] && Ended(after, c)
  {
    OpenHasNoJob(s, Pending(s), t);
  }

  lemma RereadStaysEnded(s: State, c: nat)
    requires Inv(s) && s.sweep.Updated? && RereadIsOwn(s, RereadStale) && c < |s.chains| && Ended(s, c)
    ensures var after := RereadStep(s); c < |after.chains| && after.chains[c] == s.chains[c] && Ended(after, c)
  {
    var after := RereadStep(s);
    var t := s.chains[c][|s.chains[c]| - 1];
    var j := s.tasks[t].job.value;
    RereadKeeps(s);
    OweSweptKeepsRows(s.(sweep := NoSweep), s.sweep.stale);
    assert TaskOk(s, t, Pending(s)) && after.jobs[j] == s.jobs[j];
    assert JobOk(after, j);
  }

  lemma FramedStaysEnded(s: State, after: State, c: nat)
    requires c < |s.chains| && Ended(s, c)
    requires after.jobs == s.jobs && c < |after.chains| && after.chains[c] == s.chains[c] && |s.tasks| <= |after.tasks|
    requires forall t :: 0 <= t < |s.tasks| ==> after.tasks[t].job == s.tasks[t].job
    ensures Ended(after, c)
  {
  }

  lemma StepStaysEnded(s: State, e: Event, c: nat)
    requires Inv(s) && LandsOpen(s, e) && RereadIsOwn(s, e) && c < |s.chains| && Ended(s, c)
    ensures var after := Step(s, e); c < |after.chains| && after.chains[c] == s.chains[c] && Ended(after, c)
  {
    if Step(s, e) != s {
      match e
      case Hook(j, enqueues) => HookStaysEnded(s, j, enqueues, c);
      case RereadStale => RereadStaysEnded(s, c);
      case FullReport(t, _, completed, error) => WriteStaysEnded(s, t, completed, error, c);
      case WriteReport(r) => WriteStaysEnded(s, s.reports[r].task, s.reports[r].completed, s.reports[r].error, c);
      case _ => FramedStaysEnded(s, Step(s, e), c);
    }
  }

  /** A chain dropped by a failure, a malformed entry or an enqueue error never resumes. */
  lemma {:induction false} EndedChainNeverResumes(s: State, events: seq<Event>, c: nat)
    requires Inv(s) && WritesLandOpen(s, events) && RereadsAreOwn(s, events) && c < |s.chains| && Ended(s, c)
    ensures var after := Run(s, events); c < |after.chains| && after.chains[c] == s.chains[c]
    decreases |events|
  {
    if events != [] {
      StepKeeps(s, events[0]);
      StepStaysEnded(s, events[0], c);
      EndedChainNeverResumes(Step(s, events[0]), events[1..], c);
    }
  }

  // ── why each condition is needed ────────────────────────────────────

  /** The code reads the row in one statement and writes it in another. Two reports that read
      before either writes both land: the verdict flips and the hooks run twice. */
  lemma SplitCheckRunsHooksTwice(s: State, t: TaskId, server: ServerId, first: ReportId, second: ReportId)
    requires Accepts(s, t, server) && first !in s.reports && second !in s.reports && first != second
    ensures var read := Step(Step(s, ReadReport(first, t, server, true, None)), ReadReport(second, t, server, false, None));
            var once := Step(read, WriteReport(first));
            var twice := Step(once, WriteReport(second));
            && once.tasks[t].status == COMPLETED && twice.tasks[t].status == FAILED && !HooksOnce(twice)
  {
    var read := Step(Step(s, ReadReport(first, t, server, true, None)), ReadReport(second, t, server, false, None));
    assert read.tasks == s.tasks && read.reports[first] == Report(t, true, None) && read.reports[second] == Report(t, false, None);
    var once := Step(read, WriteReport(first));
    var twice := Step(once, WriteReport(second));
    assert twice.jobs[|s.jobs|].task == t == twice.jobs[|s.jobs| + 1].task;
  }

  /** The sweep tells its own rows by their error text. A FAILED report with that text, between
      the selection and the update of a sweep that closes another row, gets its hooks run twice. */
  lemma ForgedTextRunsHooksTwice(s: State, t: TaskId, server: ServerId, other: TaskId)
    requires Inv(s) && s.sweep.Selected? && t in s.sweep.stale && other in s.sweep.stale && t != other
    requires Accepts(s, t, server) && Open(s, other)
    ensures var reported := Step(s, FullReport(t, server, false, Some(SWEEP_ERROR)));
            !HooksOnce(Step(Step(reported, UpdateStale), RereadStale))
  {
    var reported := Step(s, FullReport(t, server, false, Some(SWEEP_ERROR)));
    WriteResultKeeps(s, t, false, Some(SWEEP_ERROR));
    UpdateKeeps(reported);
    var updated := Step(reported, UpdateStale);
    assert LooksSwept(updated, t) && t in updated.sweep.stale && other in updated.sweep.swept;
    assert updated.tasks[t].job.Some?;
    InvIsTracked(updated);
    StaleOwesTwice(updated, RereadStale);
  }
}
