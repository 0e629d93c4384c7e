/**
 The watermark scheduler of user cron jobs (apps/api/src/modules/cron/cron.service.ts).

 Ticks do not overlap; everything else does: executions, manual runs and edits of
 the jobs fall between any two awaits of a tick. `fired` records the occurrences
 a tick has honoured.
 */
module CronService {
  import opened Wrappers

  type Time = int
  type JobId = nat
  type RunId = nat

  datatype Job = Job(createdAt: Time, lastRunAt: Option<Time>, enabled: bool)

  datatype Execution = Execution(job: JobId, ranAt: Time)

  /** The job a tick has found due and is about to write the watermark of, or to launch. */
  datatype Due = Deciding | Writing(job: JobId, occurrence: Time) | Launching(job: JobId)

  datatype Tick = Tick(now: Time, read: bool, todo: seq<(JobId, Job)>, due: Due)

  datatype State = State(
    clock: Time,
    jobs: map<JobId, Job>,
    nextJob: JobId,
    running: set<JobId>,
    executions: map<RunId, Execution>,
    tick: Option<Tick>,
    fired: map<JobId, seq<Time>>)

  function Init(clock: Time): State {
    State(clock, map[], 0, {}, map[], None, map[])
  }

  function Last(job: Job): Time {
    if job.lastRunAt.Some? then job.lastRunAt.value else job.createdAt
  }

  function Fired(s: State, id: JobId): seq<Time> {
    if id in s.fired then s.fired[id] else []
  }

  datatype Event =
    | Pass(time: Time)                                // the clock moves on
    | Create | Edit(id: JobId, enabled: bool) | Remove(id: JobId)
    | BeginTick                                       // now = new Date()
    | ReadJobs(order: seq<JobId>)                     // findMany({ enabled: true })
    | Decide(occurrence: Option<Time>)                // one turn of the loop up to its first await
    | WriteWatermark                                  // update({ lastRunAt: occurrence })
    | Launch(run: RunId)                              // execute(), called by the tick
    | RunNow(id: JobId, run: RunId)                   // execute(), called by hand after the row was found
    | RecordRun(run: RunId)                           // update({ lastRunAt: ranAt })
    | Finish(run: RunId)                              // the finally block

  /** execute() up to its first await: refuse a job that is running, else mark it. */
  function ExecuteStep(s: State, id: JobId, run: RunId): State {
    if id in s.running || run in s.executions then s
    else s.(running := s.running + {id}, executions := s.executions[run := Execution(id, s.clock)])
  }

  function SetLastRun(jobs: map<JobId, Job>, id: JobId, time: Time): map<JobId, Job> {
    if id in jobs then jobs[id := jobs[id].(lastRunAt := Some(time))] else jobs
  }

  /** previousOccurrence never answers with a time after `now`. */
  predicate Past(t: Tick, occurrence: Option<Time>) {
    occurrence.Some? ==> occurrence.value <= t.now
  }

  function DecideStep(s: State, t: Tick, occurrence: Option<Time>): State
    requires t.todo != []
  {
    var (id, job) := t.todo[0];
    var skip := s.(tick := Some(t.(todo := t.todo[1..])));
    if id in s.running then skip
    else if occurrence.None? then skip
    else if Last(job) >= occurrence.value then skip
    else s.(tick := Some(t.(todo := t.todo[1..], due := Writing(id, occurrence.value))))
  }

  /** The update throws when the row is gone; the tick then goes on with the next job. */
  function WriteStep(s: State, t: Tick): State
    requires t.due.Writing?
  {
    var id := t.due.job;
    if id in s.jobs then
      s.(jobs := SetLastRun(s.jobs, id, t.due.occurrence),
         fired := s.fired[id := Fired(s, id) + [t.due.occurrence]],
         tick := Some(t.(due := Launching(id))))
    else s.(tick := Some(t.(due := Deciding)))
  }

  /** findMany({ enabled: true }) returned these rows, each once. */
  predicate Snapshot(jobs: map<JobId, Job>, order: seq<JobId>) {
    && (forall i, j :: 0 <= i < j < |order| ==> order[i] != order[j])
    && (forall i :: 0 <= i < |order| ==> order[i] in jobs && jobs[order[i]].enabled)
    && (forall id :: id in jobs && jobs[id].enabled ==> id in order)
  }

  function Step(s: State, e: Event): State {
    match e
    case Pass(time) => if time >= s.clock then s.(clock := time) else s
    case Create => s.(jobs := s.jobs[s.nextJob := Job(s.clock, None, true)], nextJob := s.nextJob + 1)
    case Edit(id, enabled) => if id in s.jobs then s.(jobs := s.jobs[id := s.jobs[id].(enabled := enabled)]) else s
    case Remove(id) => s.(jobs := s.jobs - {id})
    case BeginTick => if s.tick.None? then s.(tick := Some(Tick(s.clock, false, [], Deciding))) else s
    case ReadJobs(order) =>
      if s.tick.Some? && !s.tick.value.read && Snapshot(s.jobs, order) then
        s.(tick := Some(s.tick.value.(read := true,
             todo := seq(|order|, i requires 0 <= i < |order| => (order[i], s.jobs[order[i]])))))
      else s
    case Decide(occurrence) =>
      if s.tick.Some? && s.tick.value.read && s.tick.value.due.Deciding? && Past(s.tick.value, occurrence) then
        if s.tick.value.todo == [] then s.(tick := None) else DecideStep(s, s.tick.value, occurrence)
      else s
    case WriteWatermark => if s.tick.Some? && s.tick.value.due.Writing? then WriteStep(s, s.tick.value) else s
    case Launch(run) =>
      if s.tick.Some? && s.tick.value.due.Launching? then
        ExecuteStep(s, s.tick.value.due.job, run).(tick := Some(s.tick.value.(due := Deciding)))
      else s
    case RunNow(id, run) => if id < s.nextJob then ExecuteStep(s, id, run) else s
    case RecordRun(run) =>
      if run in s.executions then s.(jobs := SetLastRun(s.jobs, s.executions[run].job, s.executions[run].ranAt)) else s
    case Finish(run) =>
      if run in s.executions then
        s.(running := s.running - {s.executions[run].job}, executions := s.executions - {run})
      else s
  }

  function Run(s: State, events: seq<Event>): State
    decreases |events|
  {
    if events == [] then s else Run(Step(s, events[0]), events[1..])
  }

  // ── the invariant ───────────────────────────────────────────────────

  ghost predicate AllAtMost(times: seq<Time>, bound: Time) {
    forall i :: 0 <= i < |times| ==> times[i] <= bound
  }

  ghost predicate Increasing(times: seq<Time>) {
    forall i, j :: 0 <= i < j < |times| ==> times[i] < times[j]
  }

  /** A row: nothing fired lies above the watermark, nothing is older than the job. */
  ghost predicate JobOk(s: State, id: JobId, job: Job) {
    && job.createdAt <= s.clock
    && AllAtMost(Fired(s, id), Last(job))
    && (Fired(s, id) != [] ==> job.lastRunAt.Some?)
    && job.createdAt <= Last(job) <= s.clock
    && (forall i :: 0 <= i < |Fired(s, id)| ==> Fired(s, id)[i] > job.createdAt)
  }

  /** An execution will write its start time over the watermark: that is no step back. */
  ghost predicate ExecutionOk(s: State, x: Execution) {
    && x.job in s.running && x.ranAt <= s.clock && x.job < s.nextJob
    && AllAtMost(Fired(s, x.job), x.ranAt)
    && (x.job in s.jobs ==> s.jobs[x.job].createdAt <= x.ranAt && Last(s.jobs[x.job]) <= x.ranAt)
  }

  ghost predicate TodoOk(s: State, t: Tick) {
    && (forall i, j :: 0 <= i < j < |t.todo| ==> t.todo[i].0 != t.todo[j].0)
    && (forall i :: 0 <= i < |t.todo| ==>
          && t.todo[i].0 < s.nextJob
          && AllAtMost(Fired(s, t.todo[i].0), Last(t.todo[i].1))
          && (t.todo[i].0 in s.jobs ==> s.jobs[t.todo[i].0].createdAt <= Last(t.todo[i].1)))
  }

  ghost predicate DueOk(s: State, t: Tick) {
    t.due.Writing? ==>
      && t.due.occurrence <= t.now && t.due.job < s.nextJob
      && (forall i :: 0 <= i < |Fired(s, t.due.job)| ==> Fired(s, t.due.job)[i] < t.due.occurrence)
      && (t.due.job in s.jobs ==> s.jobs[t.due.job].createdAt < t.due.occurrence)
      && (forall x :: x in s.executions && s.executions[x].job == t.due.job ==> s.executions[x].ranAt >= t.now)
      && (forall i :: 0 <= i < |t.todo| ==> t.todo[i].0 != t.due.job)
  }

  ghost predicate JobsOk(s: State) {
    forall id :: id in s.jobs ==> id < s.nextJob && JobOk(s, id, s.jobs[id])
  }

  ghost predicate FiredOk(s: State) {
    forall id :: id in s.fired ==> id < s.nextJob && Increasing(s.fired[id]) && AllAtMost(s.fired[id], s.clock)
  }

  ghost predicate ExecutionsOk(s: State) {
    && (forall x :: x in s.executions ==> ExecutionOk(s, s.executions[x]))
    && (forall x, y :: x in s.executions && y in s.executions && s.executions[x].job == s.executions[y].job ==> x == y)
  }

  ghost predicate TickOk(s: State) {
    s.tick.Some? ==>
      && s.tick.value.now <= s.clock
      && TodoOk(s, s.tick.value) && DueOk(s, s.tick.value)
      && (!s.tick.value.read ==> s.tick.value.due.Deciding?)
      && (s.tick.value.due.Launching? ==> s.tick.value.due.job < s.nextJob)
  }

  ghost predicate Inv(s: State) {
    JobsOk(s) && FiredOk(s) && ExecutionsOk(s) && TickOk(s)
  }

  /** Steps that write no watermark and fire nothing. */
  ghost predicate Frames(s: State, after: State) {
    && after.fired == s.fired && after.nextJob >= s.nextJob && after.clock >= s.clock
    && (forall id :: id in after.jobs ==>
          id in s.jobs && after.jobs[id].createdAt == s.jobs[id].createdAt && after.jobs[id].lastRunAt == s.jobs[id].lastRunAt)
  }

  lemma JobsFramed(s: State, after: State)
    requires JobsOk(s) && FiredOk(s) && Frames(s, after)
    ensures JobsOk(after) && FiredOk(after)
  {
    forall id | id in after.jobs ensures id < after.nextJob && JobOk(after, id, after.jobs[id]) {
      assert JobOk(s, id, s.jobs[id]) && Fired(after, id) == Fired(s, id);
    }
  }

  lemma ExecutionsFramed(s: State, after: State)
    requires ExecutionsOk(s) && Frames(s, after)
    requires after.executions == s.executions && after.running == s.running
    ensures ExecutionsOk(after)
  {
    forall x | x in after.executions ensures ExecutionOk(after, after.executions[x]) {
      assert ExecutionOk(s, s.executions[x]);
      assert Fired(after, s.executions[x].job) == Fired(s, s.executions[x].job);
    }
  }

  lemma TodoFramed(s: State, after: State, t: Tick)
    requires TodoOk(s, t) && Frames(s, after)
    ensures TodoOk(after, t)
  {
    assert forall id :: Fired(after, id) == Fired(s, id);
  }

  lemma TickFramed(s: State, after: State)
    requires TickOk(s) && Frames(s, after) && after.tick == s.tick
    requires forall x :: x in after.executions ==>
      (x in s.executions && after.executions[x] == s.executions[x]) || after.executions[x].ranAt >= s.clock
    ensures TickOk(after)
  {
    if s.tick.Some? {
      TodoFramed(s, after, s.tick.value);
      assert forall id :: Fired(after, id) == Fired(s, id);
    }
  }

  /** A job that is not running and has a due occurrence above its watermark. */
  lemma DecidesWell(s: State, t: Tick, occurrence: Time)
    requires ExecutionsOk(s) && TodoOk(s, t) && t.todo != [] && t.todo[0].0 !in s.running
    requires occurrence <= t.now && Last(t.todo[0].1) < occurrence
    ensures DueOk(s, t.(todo := t.todo[1..], due := Writing(t.todo[0].0, occurrence)))
  {
    var (id, job) := t.todo[0];
    assert AllAtMost(Fired(s, id), Last(job));
    forall x | x in s.executions ensures s.executions[x].job != id { assert ExecutionOk(s, s.executions[x]); }
  }

  lemma DecideKeeps(s: State, t: Tick, occurrence: Option<Time>)
    requires Inv(s) && s.tick == Some(t) && t.read && t.due.Deciding? && t.todo != [] && Past(t, occurrence)
    ensures Inv(DecideStep(s, t, occurrence))
  {
    var after := DecideStep(s, t, occurrence);
    JobsFramed(s, after);
    ExecutionsFramed(s, after);
    TodoFramed(s, after, t.(todo := t.todo[1..]));
    if after.tick.value.due.Writing? {
      DecidesWell(s, t, occurrence.value);
      DueFramed(s, after, after.tick.value);
    }
  }

  lemma DueFramed(s: State, after: State, t: Tick)
    requires DueOk(s, t) && Frames(s, after) && after.executions == s.executions
    ensures DueOk(after, t)
  {
    assert t.due.Writing? ==> Fired(after, t.due.job) == Fired(s, t.due.job);
  }

  lemma CreateKeeps(s: State)
    requires Inv(s)
    ensures Inv(Step(s, Create))
  {
    var after := Step(s, Create);
    var counted := s.(nextJob := s.nextJob + 1);
    JobsFramed(s, counted);
    ExecutionsFramed(s, counted);
    TickFramed(s, counted);
    AddKeeps(counted, s.nextJob);
    assert after == counted.(jobs := counted.jobs[s.nextJob := Job(s.clock, None, true)]);
  }

  /** The new row has no past: nothing fired, nothing running, no place in the tick. */
  lemma AddKeeps(s: State, id: JobId)
    requires Inv(s) && id < s.nextJob && id !in s.fired && id !in s.jobs
    requires forall x :: x in s.executions ==> s.executions[x].job != id
    requires s.tick.Some? ==> forall i :: 0 <= i < |s.tick.value.todo| ==> s.tick.value.todo[i].0 != id
    requires s.tick.Some? && s.tick.value.due.Writing? ==> s.tick.value.due.job != id
    ensures Inv(s.(jobs := s.jobs[id := Job(s.clock, None, true)]))
  {
    var after := s.(jobs := s.jobs[id := Job(s.clock, None, true)]);
    forall j | j in after.jobs ensures j < after.nextJob && JobOk(after, j, after.jobs[j]) {
      assert Fired(after, j) == Fired(s, j);
      if j != id { assert JobOk(s, j, s.jobs[j]); }
    }
    forall x | x in after.executions ensures ExecutionOk(after, after.executions[x]) {
      assert ExecutionOk(s, s.executions[x]) && Fired(after, s.executions[x].job) == Fired(s, s.executions[x].job);
    }
    assert TickOk(after) by { assert forall j :: Fired(after, j) == Fired(s, j); }
  }

  lemma EditKeeps(s: State, e: Event)
    requires Inv(s) && (e.Edit? || e.Remove? || e.Pass?)
    ensures Inv(Step(s, e))
  {
    JobsFramed(s, Step(s, e));
    ExecutionsFramed(s, Step(s, e));
    TickFramed(s, Step(s, e));
  }

  lemma BeginKeeps(s: State)
    requires Inv(s)
    ensures Inv(Step(s, BeginTick))
  {
    JobsFramed(s, Step(s, BeginTick));
    ExecutionsFramed(s, Step(s, BeginTick));
  }

  lemma ReadKeeps(s: State, order: seq<JobId>)
    requires Inv(s)
    ensures Inv(Step(s, ReadJobs(order)))
  {
    var after := Step(s, ReadJobs(order));
    JobsFramed(s, after);
    ExecutionsFramed(s, after);
    forall i | Snapshot(s.jobs, order) && 0 <= i < |order| ensures JobOk(s, order[i], s.jobs[order[i]]) {
    }
    assert forall id :: Fired(after, id) == Fired(s, id);
    assert after.tick.Some? ==> TodoOk(after, after.tick.value);
  }

  lemma WriteKeepsJobs(s: State, t: Tick)
    requires JobsOk(s) && TickOk(s) && s.tick == Some(t) && t.due.Writing? && t.due.job in s.jobs
    ensures JobsOk(WriteStep(s, t))
  {
    var job, after := t.due.job, WriteStep(s, t);
    forall id | id in after.jobs ensures id < s.nextJob && JobOk(after, id, after.jobs[id]) {
      assert id in s.jobs && JobOk(s, id, s.jobs[id]);
      assert id != job ==> Fired(after, id) == Fired(s, id);
    }
  }

  lemma WriteKeepsFired(s: State, t: Tick)
    requires FiredOk(s) && TickOk(s) && s.tick == Some(t) && t.due.Writing? && t.due.job in s.jobs
    ensures FiredOk(WriteStep(s, t))
  {
  }

  lemma WriteKeeps(s: State, t: Tick)
    requires Inv(s) && s.tick == Some(t) && t.due.Writing? && t.due.job in s.jobs
    ensures Inv(WriteStep(s, t))
  {
    var job, after := t.due.job, WriteStep(s, t);
    WriteKeepsJobs(s, t);
    WriteKeepsFired(s, t);
    WriteKeepsExecutions(s, t);
    assert TickOk(after) by {
      assert forall id :: id != job ==> Fired(after, id) == Fired(s, id);
    }
  }

  lemma WriteKeepsExecutions(s: State, t: Tick)
    requires ExecutionsOk(s) && TickOk(s) && s.tick == Some(t) && t.due.Writing? && t.due.job in s.jobs
    ensures ExecutionsOk(WriteStep(s, t))
  {
    var after := WriteStep(s, t);
    forall x | x in after.executions ensures ExecutionOk(after, after.executions[x]) {
      assert ExecutionOk(s, s.executions[x]);
      assert s.executions[x].job != t.due.job ==> Fired(after, s.executions[x].job) == Fired(s, s.executions[x].job);
    }
  }

  lemma ExecuteTracks(s: State, id: JobId, run: RunId)
    requires ExecutionsOk(s) && FiredOk(s) && id < s.nextJob
    requires id in s.jobs ==> s.jobs[id].createdAt <= s.clock && Last(s.jobs[id]) <= s.clock
    ensures ExecutionsOk(ExecuteStep(s, id, run))
  {
    var after := ExecuteStep(s, id, run);
    forall x | x in after.executions ensures ExecutionOk(after, after.executions[x]) {
      assert Fired(after, after.executions[x].job) == Fired(s, after.executions[x].job);
      if x in s.executions { assert ExecutionOk(s, s.executions[x]); }
    }
  }

  lemma ExecuteKeeps(s: State, id: JobId, run: RunId)
    requires Inv(s) && id < s.nextJob
    ensures Inv(ExecuteStep(s, id, run))
  {
    var after := ExecuteStep(s, id, run);
    assert id in s.jobs ==> JobOk(s, id, s.jobs[id]);
    JobsFramed(s, after);
    TickFramed(s, after);
    ExecuteTracks(s, id, run);
  }

  lemma LaunchKeeps(s: State, t: Tick, run: RunId)
    requires Inv(s) && s.tick == Some(t) && t.due.Launching?
    ensures Inv(Step(s, Launch(run)))
  {
    var launched := ExecuteStep(s, t.due.job, run);
    var after := Step(s, Launch(run));
    ExecuteKeeps(s, t.due.job, run);
    JobsFramed(launched, after);
    ExecutionsFramed(launched, after);
    TodoFramed(launched, after, after.tick.value);
  }

  lemma RecordKeeps(s: State, run: RunId)
    requires Inv(s) && run in s.executions
    ensures Inv(Step(s, RecordRun(run)))
  {
    var after := Step(s, RecordRun(run));
    assert ExecutionOk(s, s.executions[run]);
    forall id | id in after.jobs ensures id < after.nextJob && JobOk(after, id, after.jobs[id]) {
      assert JobOk(s, id, s.jobs[id]) && Fired(after, id) == Fired(s, id);
    }
    forall x | x in after.executions ensures ExecutionOk(after, after.executions[x]) {
      assert ExecutionOk(s, s.executions[x]);
      assert Fired(after, after.executions[x].job) == Fired(s, after.executions[x].job);
    }
    assert TickOk(after) by { assert forall id :: Fired(after, id) == Fired(s, id); }
  }

  lemma FinishKeeps(s: State, run: RunId)
    requires Inv(s) && run in s.executions
    ensures Inv(Step(s, Finish(run)))
  {
    var after := Step(s, Finish(run));
    JobsFramed(s, after);
    TickFramed(s, after);
    forall x | x in after.executions ensures ExecutionOk(after, after.executions[x]) {
      assert ExecutionOk(s, s.executions[x]);
      assert Fired(after, after.executions[x].job) == Fired(s, after.executions[x].job);
    }
  }

  lemma StepKeeps(s: State, e: Event)
    requires Inv(s)
    ensures Inv(Step(s, e))
  {
    if Step(s, e) != s {
      match e
      case Create => CreateKeeps(s);
      case BeginTick => BeginKeeps(s);
      case ReadJobs(order) => ReadKeeps(s, order);
      case Decide(occurrence) =>
        if s.tick.value.todo == [] { CloseKeeps(s); } else { DecideKeeps(s, s.tick.value, occurrence); }
      case WriteWatermark =>
        if s.tick.value.due.job in s.jobs { WriteKeeps(s, s.tick.value); } else { SkipKeeps(s, s.tick.value); }
      case Launch(run) => LaunchKeeps(s, s.tick.value, run);
      case RunNow(id, run) => ExecuteKeeps(s, id, run);
      case RecordRun(run) => RecordKeeps(s, run);
      case Finish(run) => FinishKeeps(s, run);
      case Edit(_, _) => EditKeeps(s, e);
      case Remove(_) => EditKeeps(s, e);
      case Pass(_) => EditKeeps(s, e);
    }
  }

  lemma CloseKeeps(s: State)
    requires Inv(s)
    ensures Inv(s.(tick := None))
  {
    JobsFramed(s, s.(tick := None));
    ExecutionsFramed(s, s.(tick := None));
  }

  lemma SkipKeeps(s: State, t: Tick)
    requires Inv(s) && s.tick == Some(t) && t.due.Writing? && t.due.job !in s.jobs
    ensures Inv(WriteStep(s, t))
  {
    var after := WriteStep(s, t);
    JobsFramed(s, after);
    ExecutionsFramed(s, after);
    TodoFramed(s, after, after.tick.value);
  }

  lemma {:induction false} RunKeeps(s: State, events: seq<Event>)
    requires Inv(s)
    ensures Inv(Run(s, events))
    decreases |events|
  {
    if events != [] {
      StepKeeps(s, events[0]);
      RunKeeps(Step(s, events[0]), events[1..]);
    }
  }

  // ── what the scheduler guarantees ───────────────────────────────────

  /** MAIN RESULT. Over any run the occurrences fired for a job strictly increase,
      are later than its creation, and none lies above its watermark. */
  lemma FiredOccurrencesIncrease(clock: Time, events: seq<Event>, id: JobId)
    ensures var s := Run(Init(clock), events);
            && Increasing(Fired(s, id))
            && (id in s.jobs ==> forall i :: 0 <= i < |Fired(s, id)| ==>
                  s.jobs[id].createdAt < Fired(s, id)[i] <= Last(s.jobs[id]) <= s.clock)
  {
    RunKeeps(Init(clock), events);
    var s := Run(Init(clock), events);
    if id in s.jobs { assert JobOk(s, id, s.jobs[id]); }
  }

  /** MAIN RESULT. A job never overlaps itself, by tick or by hand. */
  lemma NeverOverlapsItself(clock: Time, events: seq<Event>, x: RunId, y: RunId)
    ensures var s := Run(Init(clock), events);
            x in s.executions && y in s.executions && s.executions[x].job == s.executions[y].job ==> x == y
  {
    RunKeeps(Init(clock), events);
  }

  /** Fired occurrences stay on record, so "increasing" is over the whole run. */
  lemma {:induction false} RecordOnlyGrows(s: State, events: seq<Event>, id: JobId)
    ensures Fired(s, id) <= Fired(Run(s, events), id)
    decreases |events|
  {
    if events != [] { RecordOnlyGrows(Step(s, events[0]), events[1..], id); }
  }

  // ── when the watermark falls ────────────────────────────────────────

  /** lastRunAt of a job (its creation while it never ran) is lower after the step. */
  ghost predicate Falls(s: State, e: Event, id: JobId) {
    id in s.jobs && id in Step(s, e).jobs && Last(Step(s, e).jobs[id]) < Last(s.jobs[id])
  }

  /** The step writes, for this job, an occurrence older than what its row holds by now. */
  predicate OverwritesNewer(s: State, e: Event, id: JobId) {
    && e.WriteWatermark? && s.tick.Some? && s.tick.value.due.Writing?
    && s.tick.value.due.job == id && id in s.jobs && s.tick.value.due.occurrence < Last(s.jobs[id])
  }

  lemma StepFallsExactlyWhen(s: State, e: Event, id: JobId)
    requires Inv(s)
    ensures Falls(s, e, id) <==> OverwritesNewer(s, e, id)
  {
    match e
    case RecordRun(run) => if run in s.executions { assert ExecutionOk(s, s.executions[run]); }
    case Create => assert s.nextJob !in s.jobs;
    case _ =>
  }

  /** MAIN RESULT. In any reachable state a step lowers the watermark of a job if and only if it is a tick's
      write of an occurrence below it: recording a run never does, however late it comes. */
  lemma WatermarkFallsExactlyWhen(clock: Time, events: seq<Event>, e: Event, id: JobId)
    ensures var s := Run(Init(clock), events); Falls(s, e, id) <==> OverwritesNewer(s, e, id)
  {
    RunKeeps(Init(clock), events);
    StepFallsExactlyWhen(Run(Init(clock), events), e, id);
  }

  /** The tick has read the job and its row has not changed since; what it is about to write lies above. */
  ghost predicate UpToDate(s: State, id: JobId) {
    s.tick.Some? && id in s.jobs ==>
      && (forall i :: 0 <= i < |s.tick.value.todo| && s.tick.value.todo[i].0 == id ==>
            Last(s.jobs[id]) == Last(s.tick.value.todo[i].1))
      && (s.tick.value.due.Writing? && s.tick.value.due.job == id ==> Last(s.jobs[id]) < s.tick.value.due.occurrence)
  }

  predicate Records(s: State, e: Event, id: JobId) {
    e.RecordRun? && e.run in s.executions && s.executions[e.run].job == id
  }

  predicate RecordsIn(s: State, events: seq<Event>, id: JobId)
    decreases |events|
  {
    events != [] && (Records(s, events[0], id) || RecordsIn(Step(s, events[0]), events[1..], id))
  }

  lemma ReadIsUpToDate(s: State, order: seq<JobId>, id: JobId)
    requires Inv(s) && s.tick.Some? && !s.tick.value.read && Snapshot(s.jobs, order)
    ensures UpToDate(Step(s, ReadJobs(order)), id)
  {
  }

  /** Steps that leave the row's watermark and the tick's plans alone. */
  lemma UpToDateFramed(s: State, after: State, id: JobId)
    requires UpToDate(s, id)
    requires id in after.jobs ==> id in s.jobs && Last(after.jobs[id]) == Last(s.jobs[id])
    requires after.tick.Some? ==>
      && (after.tick.value.todo == [] || (s.tick.Some? && after.tick.value.todo == s.tick.value.todo))
      && (after.tick.value.due.Writing? ==> s.tick.Some? && after.tick.value.due == s.tick.value.due)
    ensures UpToDate(after, id)
  {
  }

  lemma DecideStaysUpToDate(s: State, t: Tick, occurrence: Option<Time>, id: JobId)
    requires UpToDate(s, id) && s.tick == Some(t) && t.due.Deciding? && t.todo != []
    ensures UpToDate(DecideStep(s, t, occurrence), id)
  {
    var after := DecideStep(s, t, occurrence);
    assert forall i :: 0 <= i < |t.todo| - 1 ==> t.todo[1..][i] == t.todo[i + 1];
  }

  lemma StaysUpToDate(s: State, e: Event, id: JobId)
    requires Inv(s) && UpToDate(s, id) && !Records(s, e, id)
    ensures UpToDate(Step(s, e), id)
  {
    if Step(s, e) != s {
      match e
      case ReadJobs(order) => ReadIsUpToDate(s, order, id);
      case WriteWatermark => WriteStaysUpToDate(s, id);
      case Create => CreateStaysUpToDate(s, id);
      case Decide(occurrence) =>
        if s.tick.value.todo != [] { DecideStaysUpToDate(s, s.tick.value, occurrence, id); }
      case _ => UpToDateFramed(s, Step(s, e), id);
    }
  }

  lemma WriteStaysUpToDate(s: State, id: JobId)
    requires Inv(s) && UpToDate(s, id) && s.tick.Some? && s.tick.value.due.Writing?
    ensures UpToDate(Step(s, WriteWatermark), id)
  {
  }

  lemma CreateStaysUpToDate(s: State, id: JobId)
    requires Inv(s) && UpToDate(s, id)
    ensures UpToDate(Step(s, Create), id)
  {
    assert s.tick.Some? ==> TodoOk(s, s.tick.value) && DueOk(s, s.tick.value);
  }

  lemma {:induction false} RunStaysUpToDate(s: State, events: seq<Event>, id: JobId)
    requires Inv(s) && UpToDate(s, id) && !RecordsIn(s, events, id)
    ensures UpToDate(Run(s, events), id)
    decreases |events|
  {
    if events != [] {
      StaysUpToDate(s, events[0], id);
      StepKeeps(s, events[0]);
      RunStaysUpToDate(Step(s, events[0]), events[1..], id);
    }
  }

  /** MAIN RESULT. A watermark falls only when a run of the job was recorded between the reading of the rows
      by that tick and the write. */
  lemma FallNeedsARecord(clock: Time, before: seq<Event>, order: seq<JobId>, between: seq<Event>, e: Event, id: JobId)
    ensures var start := Run(Init(clock), before);
            var read := Step(start, ReadJobs(order));
            start.tick.Some? && !start.tick.value.read && Snapshot(start.jobs, order) && Falls(Run(read, between), e, id) ==>
              RecordsIn(read, between, id)
  {
    var start := Run(Init(clock), before);
    var read := Step(start, ReadJobs(order));
    RunKeeps(Init(clock), before);
    StepKeeps(start, ReadJobs(order));
    RunKeeps(read, between);
    StepFallsExactlyWhen(Run(read, between), e, id);
    if start.tick.Some? && !start.tick.value.read && Snapshot(start.jobs, order) && !RecordsIn(read, between, id) {
      ReadIsUpToDate(start, order, id);
      RunStaysUpToDate(read, between, id);
    }
  }

  /** A tick that has read the one job, ten milliseconds after its creation. */
  const TICKING := State(10, map[0 := Job(0, None, true)], 1, {}, map[],
                         Some(Tick(10, true, [(0, Job(0, None, true))], Deciding)), map[])

  const OPENING: seq<Event> := [Create, Pass(10), BeginTick, ReadJobs([0])]

  /** A manual run is recorded before the turn of the job comes. */
  const OVERTAKEN: seq<Event> := [RunNow(0, 0), RecordRun(0), Finish(0), Decide(Some(5))]

  lemma TickingIsReached()
    ensures Run(Init(0), OPENING) == TICKING
  {
    var s1 := Init(0).(jobs := map[0 := Job(0, None, true)], nextJob := 1);
    var s2 := s1.(clock := 10, tick := Some(Tick(10, false, [], Deciding)));
    var e := OPENING;
    assert Step(Init(0), e[0]) == s1 && Step(Step(s1, e[1]), e[2]) == s2;
    assert Snapshot(s2.jobs, [0]);
    assert Step(s2, e[3]).tick.value.todo == [(0, Job(0, None, true))];
    RunFour(Init(0), e);
  }

  lemma RunFour(s: State, e: seq<Event>)
    requires |e| == 4
    ensures Run(s, e) == Step(Step(Step(Step(s, e[0]), e[1]), e[2]), e[3])
  {
    assert e[1..][1..] == e[2..] && e[2..][1..] == e[3..] && e[3..][1..] == [];
    var s2 := Step(Step(s, e[0]), e[1]);
    assert Run(Step(s, e[0]), e[1..]) == Run(s2, e[2..]) == Run(Step(s2, e[2]), e[3..]);
    assert Run(Step(s2, e[2]), e[3..]) == Run(Step(Step(s2, e[2]), e[3]), []);
  }

  lemma {:induction false} RunConcat(s: State, a: seq<Event>, b: seq<Event>)
    ensures Run(s, a + b) == Run(Run(s, a), b)
    decreases |a|
  {
    if a == [] {
      assert a + b == b;
    } else {
      assert (a + b)[1..] == a[1..] + b;
      RunConcat(Step(s, a[0]), a[1..], b);
    }
  }

  /** Then the row holds the time of the manual run, and the tick is about to write an older one. */
  const ABOUT_TO_FALL := State(10, map[0 := Job(0, Some(10), true)], 1, {}, map[],
                               Some(Tick(10, true, [], Writing(0, 5))), map[])

  lemma ManualRunIsRecorded()
    ensures Step(Step(Step(TICKING, RunNow(0, 0)), RecordRun(0)), Finish(0))
              == TICKING.(jobs := map[0 := Job(0, Some(10), true)])
  {
    var started := TICKING.(running := {0}, executions := map[0 := Execution(0, 10)]);
    assert Step(TICKING, RunNow(0, 0)) == started;
    var recorded := started.(jobs := map[0 := Job(0, Some(10), true)]);
    assert Step(started, RecordRun(0)) == recorded;
    assert Step(recorded, Finish(0)) == recorded.(running := {}, executions := map[]);
  }

  lemma FallIsReached()
    ensures Run(Init(0), OPENING + OVERTAKEN) == ABOUT_TO_FALL
  {
    TickingIsReached();
    ManualRunIsRecorded();
    RunConcat(Init(0), OPENING, OVERTAKEN);
    RunFour(TICKING, OVERTAKEN);
    var over := TICKING.(jobs := map[0 := Job(0, Some(10), true)]);
    assert [(0, Job(0, None, true))][1..] == [];
    assert Step(over, Decide(Some(5))) == ABOUT_TO_FALL;
  }

  /** A run from the start after which the row holds 10 and the tick writes 5. */
  lemma WatermarkMayFall()
    ensures var s := Run(Init(0), OPENING + OVERTAKEN);
            && s.jobs == map[0 := Job(0, Some(10), true)]
            && Falls(s, WriteWatermark, 0)
            && Step(s, WriteWatermark).jobs == map[0 := Job(0, Some(5), true)]
  {
    FallIsReached();
  }

  // ── the service itself ──────────────────────────────────────────────

  /** The rows of the cron_jobs table, the running set, and the tick under way; each method
      is a stretch of cron.service.ts between two awaits. */
  class Scheduler {
    var clock: Time
    var jobs: map<JobId, Job>
    var nextJob: JobId
    var running: set<JobId>
    var executions: map<RunId, Execution>
    var tick: Option<Tick>
    ghost var fired: map<JobId, seq<Time>>

    ghost function Contents(): State
      reads this
    {
      State(clock, jobs, nextJob, running, executions, tick, fired)
    }

    ghost predicate Valid()
      reads this
    {
      Inv(Contents())
    }

    constructor (now: Time)
      ensures Valid() && Contents() == Init(now)
    {
      clock, jobs, nextJob, running := now, map[], 0, {};
      executions, tick, fired := map[], None, map[];
    }

    method BeginTick()
      requires Valid()
      modifies this`tick
      ensures Valid() && Contents() == Step(old(Contents()), Event.BeginTick)
    {
      StepKeeps(Contents(), Event.BeginTick);
      if tick.None? { tick := Some(Tick(clock, false, [], Deciding)); }
    }

    /** The rows findMany returned, in the order it returned them. */
    method ReadJobs(order: seq<JobId>)
      requires Valid() && tick.Some? && !tick.value.read && Snapshot(jobs, order)
      modifies this`tick
      ensures Valid() && Contents() == Step(old(Contents()), Event.ReadJobs(order))
    {
      StepKeeps(Contents(), Event.ReadJobs(order));
      var rows := jobs;
      var todo: seq<(JobId, Job)> := seq(|order|, i requires 0 <= i < |order| => (order[i], rows[order[i]]));
      tick := Some(tick.value.(read := true, todo := todo));
    }

    /** The turn of the next job up to its first await; false at the end of the list. */
    method NextJob(occurrence: Option<Time>) returns (more: bool)
      requires Valid() && tick.Some? && tick.value.read && tick.value.due.Deciding? && Past(tick.value, occurrence)
      modifies this`tick
      ensures Valid() && Contents() == Step(old(Contents()), Event.Decide(occurrence))
      ensures more == (old(tick.value.todo) != [])
    {
      StepKeeps(Contents(), Event.Decide(occurrence));
      var t := tick.value;
      more := t.todo != [];
      if !more {
        tick := None;
        return;
      }
      var (id, job) := t.todo[0];
      t := t.(todo := t.todo[1..]);
      if id !in running && occurrence.Some? {
        var last := if job.lastRunAt.Some? then job.lastRunAt.value else job.createdAt;
        if last < occurrence.value { t := t.(due := Writing(id, occurrence.value)); }
      }
      tick := Some(t);
    }

    /** Mark the occurrence honoured; the update throws when the row is gone. */
    method WriteWatermark() returns (written: bool)
      requires Valid() && tick.Some? && tick.value.due.Writing?
      modifies this`jobs, this`tick, this`fired
      ensures Valid() && Contents() == Step(old(Contents()), Event.WriteWatermark)
      ensures written == (old(tick.value.due.job) in old(jobs))
    {
      StepKeeps(Contents(), Event.WriteWatermark);
      var id, occurrence := tick.value.due.job, tick.value.due.occurrence;
      written := id in jobs;
      if written {
        jobs := jobs[id := jobs[id].(lastRunAt := Some(occurrence))];
        fired := fired[id := Fired(Contents(), id) + [occurrence]];
        tick := Some(tick.value.(due := Launching(id)));
      } else {
        tick := Some(tick.value.(due := Deciding));
      }
    }

    /** execute() up to its first await. */
    method Execute(id: JobId, run: RunId) returns (started: bool)
      requires Valid() && id < nextJob && run !in executions
      modifies this`running, this`executions
      ensures Valid() && Contents() == ExecuteStep(old(Contents()), id, run)
      ensures started == (id !in old(running))
    {
      ExecuteKeeps(Contents(), id, run);
      started := id !in running;
      if started {
        running := running + {id};
        executions := executions[run := Execution(id, clock)];
      }
    }

    method RecordRun(run: RunId)
      requires Valid() && run in executions
      modifies this`jobs
      ensures Valid() && Contents() == Step(old(Contents()), Event.RecordRun(run))
    {
      StepKeeps(Contents(), Event.RecordRun(run));
      var x := executions[run];
      if x.job in jobs { jobs := jobs[x.job := jobs[x.job].(lastRunAt := Some(x.ranAt))]; }
    }

    method Finish(run: RunId)
      requires Valid() && run in executions
      modifies this`running, this`executions
      ensures Valid() && Contents() == Step(old(Contents()), Event.Finish(run))
    {
      StepKeeps(Contents(), Event.Finish(run));
      running, executions := running - {executions[run].job}, executions - {run};
    }
  }
}
