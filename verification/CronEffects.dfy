/**
 What a tick of CronService does to the rows and to the commands under way, told on jobs, fired
 and executions (apps/api/src/modules/cron/cron.service.ts): which jobs are read, which of them run
 and when, and what is left of a run. Other events fall between any two awaits.
 */
module CronEffects {
  import opened Wrappers
  import opened CronService

  // ── reading the rows ────────────────────────────────────────────────

  /** A tick begins with the time of its beginning and an empty list, unless one is under way, and ends with its list. */
  lemma TicksBeginAndEnd(s: State)
    ensures s.tick.None? ==> Step(s, BeginTick) == s.(tick := Some(Tick(s.clock, false, [], Deciding)))
    ensures s.tick.Some? ==> Step(s, BeginTick) == s
    ensures s.tick.Some? && s.tick.value.read && s.tick.value.due.Deciding? && s.tick.value.todo == [] ==>
      Step(s, Decide(None)) == s.(tick := None)
  {
  }

  /** Every enabled job is on the list of the tick, once and with its row as it is. */
  lemma EveryEnabledJobIsRead(s: State, order: seq<JobId>)
    requires s.tick.Some? && !s.tick.value.read && Step(s, ReadJobs(order)) != s
    ensures var after := Step(s, ReadJobs(order));
            && after.tick.Some? && after == s.(tick := after.tick)
            && var todo := after.tick.value.todo;
               && (forall i :: 0 <= i < |todo| ==> todo[i].0 in s.jobs && s.jobs[todo[i].0].enabled && todo[i].1 == s.jobs[todo[i].0])
               && (forall i, j :: 0 <= i < j < |todo| ==> todo[i].0 != todo[j].0)
               && (forall id :: id in s.jobs && s.jobs[id].enabled ==> exists i :: 0 <= i < |todo| && todo[i].0 == id)
  {
    var todo := Step(s, ReadJobs(order)).tick.value.todo;
    forall id | id in s.jobs && s.jobs[id].enabled ensures exists i :: 0 <= i < |todo| && todo[i].0 == id {
      var i :| 0 <= i < |order| && order[i] == id;
      assert todo[i].0 == id;
    }
  }

  // ── one turn of the loop ────────────────────────────────────────────

  /** The tick is at the turn of `id`, whose row it has read as `job`, and the job was not running when it got there. */
  ghost predicate AtTurnOf(s: State, id: JobId, job: Job) {
    && s.tick.Some? && s.tick.value.read && s.tick.value.due.Deciding?
    && s.tick.value.todo != [] && s.tick.value.todo[0] == (id, job)
  }

  /** The row has been neither run nor created since the occurrence. */
  predicate IsDue(job: Job, occurrence: Time) {
    match job.lastRunAt
    case Some(time) => time < occurrence
    case None => job.createdAt < occurrence
  }

  /** Until the tick's own next statement nothing moves it. */
  lemma {:induction false} TickWaits(s: State, events: seq<Event>)
    requires s.tick.Some? && s.tick.value.read
    requires s.tick.value.due.Writing? || s.tick.value.due.Launching?
    requires s.tick.value.due.Writing? ==> WriteWatermark !in events
    requires s.tick.value.due.Launching? ==> forall e :: e in events ==> !e.Launch?
    ensures Run(s, events).tick == s.tick
    decreases |events|
  {
    if events != [] {
      assert events[0] in events && forall e :: e in events[1..] ==> e in events;
      TickWaits(Step(s, events[0]), events[1..]);
    }
  }

  lemma DueIsWritten(s: State, id: JobId, job: Job, o: Time, first: seq<Event>)
    requires AtTurnOf(s, id, job) && id !in s.running && IsDue(job, o) && o <= s.tick.value.now && WriteWatermark !in first
    ensures var waited := Run(Step(s, Decide(Some(o))), first);
            var written := Step(waited, WriteWatermark);
            && waited.tick == Some(s.tick.value.(todo := s.tick.value.todo[1..], due := Writing(id, o)))
            && (id in waited.jobs ==>
                  && written.jobs == waited.jobs[id := waited.jobs[id].(lastRunAt := Some(o))]
                  && Fired(written, id) == Fired(waited, id) + [o]
                  && (forall other :: other != id ==> Fired(written, other) == Fired(waited, other))
                  && written.tick == Some(s.tick.value.(todo := s.tick.value.todo[1..], due := Launching(id))))
            && (id !in waited.jobs ==>
                  written == waited.(tick := Some(s.tick.value.(todo := s.tick.value.todo[1..]))))
            && written.executions == waited.executions && written.running == waited.running && written.clock == waited.clock
  {
    TickWaits(Step(s, Decide(Some(o))), first);
  }

  lemma WrittenIsLaunched(s: State, id: JobId, second: seq<Event>, run: RunId)
    requires s.tick.Some? && s.tick.value.read && s.tick.value.due == Launching(id) && forall e :: e in second ==> !e.Launch?
    ensures var waited := Run(s, second);
            var after := Step(waited, Launch(run));
            && (id !in waited.running && run !in waited.executions ==>
                  && after.running == waited.running + {id}
                  && after.executions == waited.executions[run := Execution(id, waited.clock)])
            && (id in waited.running ==> after.running == waited.running && after.executions == waited.executions)
            && after.jobs == waited.jobs && after.fired == waited.fired
            && after.tick == Some(s.tick.value.(due := Deciding))
  {
    TickWaits(s, second);
  }

  /** MAIN RESULT. A due job runs. In any state where a tick gets to a job that it has read and that is not running, with an
      occurrence above its watermark, and whatever else happens between the statements of the turn: while the
      row exists the occurrence becomes its watermark and goes on record, for this job alone, and then, unless somebody
      has started it by hand in the meantime, an execution of it starts, at the clock of that moment, under the run's
      name. The tick goes on with the next job. */
  lemma DueJobRuns(s: State, id: JobId, job: Job, o: Time, first: seq<Event>, second: seq<Event>, run: RunId)
    requires AtTurnOf(s, id, job) && id !in s.running && IsDue(job, o) && o <= s.tick.value.now
    requires WriteWatermark !in first && forall e :: e in second ==> !e.Launch?
    ensures var waited := Run(Step(s, Decide(Some(o))), first);
            var written := Step(waited, WriteWatermark);
            var ready := Run(written, second);
            var after := Step(ready, Launch(run));
            id in waited.jobs ==>
              && written.jobs == waited.jobs[id := waited.jobs[id].(lastRunAt := Some(o))]
              && Fired(written, id) == Fired(waited, id) + [o]
              && (id !in ready.running && run !in ready.executions ==>
                    && after.running == ready.running + {id}
                    && after.executions == ready.executions[run := Execution(id, ready.clock)])
              && after.jobs == ready.jobs && after.fired == ready.fired
              && after.tick == Some(s.tick.value.(todo := s.tick.value.todo[1..]))
  {
    DueIsWritten(s, id, job, o, first);
    var waited := Run(Step(s, Decide(Some(o))), first);
    if id in waited.jobs { WrittenIsLaunched(Step(waited, WriteWatermark), id, second, run); }
  }

  /** MAIN RESULT. With nothing in between, from any state a run from the start reaches: such a job ends its turn with the
      occurrence fired, its watermark there, and its command under way. */
  lemma UndisturbedTurn(clock: Time, before: seq<Event>, id: JobId, job: Job, o: Time, run: RunId)
    requires var s := Run(Init(clock), before);
             && AtTurnOf(s, id, job) && id !in s.running && id in s.jobs && IsDue(job, o) && o <= s.tick.value.now
             && run !in s.executions
    ensures var s := Run(Init(clock), before);
            var after := Run(s, [Decide(Some(o)), WriteWatermark, Launch(run)]);
            && Run(Init(clock), before + [Decide(Some(o)), WriteWatermark, Launch(run)]) == after
            && after.jobs == s.jobs[id := s.jobs[id].(lastRunAt := Some(o))]
            && Fired(after, id) == Fired(s, id) + [o]
            && after.running == s.running + {id}
            && after.executions == s.executions[run := Execution(id, s.clock)]
            && after.tick == Some(s.tick.value.(todo := s.tick.value.todo[1..]))
  {
    var s, turn := Run(Init(clock), before), [Decide(Some(o)), WriteWatermark, Launch(run)];
    RunConcat(Init(clock), before, turn);
    var decided := Step(s, Decide(Some(o)));
    var written := Step(decided, WriteWatermark);
    DueJobRuns(s, id, job, o, [], [], run);
    assert Run(decided, []) == decided && Run(written, []) == written;
    assert turn[1..] == [WriteWatermark, Launch(run)] && turn[1..][1..] == [Launch(run)] && turn[1..][1..][1..] == [];
    assert Run(s, turn) == Step(written, Launch(run)) by {
      assert Run(s, turn) == Run(decided, turn[1..]);
      assert Run(decided, turn[1..]) == Run(written, turn[1..][1..]);
      assert Run(written, turn[1..][1..]) == Run(Step(written, Launch(run)), turn[1..][1..][1..]);
    }
    assert decided == s.(tick := decided.tick);
    assert written.running == s.running && written.executions == s.executions && written.clock == s.clock;
  }

  /** A job that is running, has no occurrence, or has honoured it already is passed over. */
  lemma OthersArePassedOver(s: State, id: JobId, job: Job, occurrence: Option<Time>)
    requires AtTurnOf(s, id, job) && (occurrence.Some? ==> occurrence.value <= s.tick.value.now)
    requires id in s.running || occurrence.None? || !IsDue(job, occurrence.value)
    ensures Step(s, Decide(occurrence)) == s.(tick := Some(s.tick.value.(todo := s.tick.value.todo[1..])))
  {
  }

  // ── runs ────────────────────────────────────────────────────────────

  /** A run by hand starts unless the job is running. */
  lemma RunByHandStarts(s: State, id: JobId, run: RunId)
    requires id < s.nextJob && run !in s.executions
    ensures Step(s, RunNow(id, run)) ==
              if id in s.running then s
              else s.(running := s.running + {id}, executions := s.executions[run := Execution(id, s.clock)])
  {
  }

  /** MAIN RESULT. From its start to its end a run leaves one trace on its row: the time it started. In any run of the
      system the job is free again once it has finished, and its row, while it exists, says so. */
  lemma RunIsRecordedAndEnds(clock: Time, before: seq<Event>, between: seq<Event>, run: RunId)
    requires var s := Run(Init(clock), before); run in s.executions
    requires RecordRun(run) !in between && Finish(run) !in between
    ensures var s := Run(Init(clock), before);
            var x := s.executions[run];
            var recorded := Step(s, RecordRun(run));
            var waited := Run(recorded, between);
            var after := Step(waited, Finish(run));
            && recorded == s.(jobs := if x.job in s.jobs then s.jobs[x.job := s.jobs[x.job].(lastRunAt := Some(x.ranAt))] else s.jobs)
            && run in waited.executions && waited.executions[run] == x
            && after.running == waited.running - {x.job} && after.executions == waited.executions - {run}
            && after.jobs == waited.jobs
            && forall y :: y in after.executions ==> after.executions[y].job != x.job
  {
    var s := Run(Init(clock), before);
    var recorded := Step(s, RecordRun(run));
    ExecutionStays(recorded, between, run);
    RunConcat(Init(clock), before, [RecordRun(run)] + between);
    assert ([RecordRun(run)] + between)[1..] == between;
    RunKeeps(Init(clock), before + ([RecordRun(run)] + between));
  }

  lemma {:induction false} ExecutionStays(s: State, events: seq<Event>, run: RunId)
    requires run in s.executions && Finish(run) !in events
    ensures run in Run(s, events).executions && Run(s, events).executions[run] == s.executions[run]
    decreases |events|
  {
    if events != [] { ExecutionStays(Step(s, events[0]), events[1..], run); }
  }

  /** New jobs are enabled, date from now and have never run; edits and removals touch their row only. */
  lemma EditsTouchTheirRow(s: State, id: JobId, enabled: bool)
    ensures Step(s, Create).jobs == s.jobs[s.nextJob := Job(s.clock, None, true)] && Step(s, Create).nextJob > s.nextJob
    ensures id in s.jobs ==>
      Step(s, Edit(id, enabled)).jobs == s.jobs[id := Job(s.jobs[id].createdAt, s.jobs[id].lastRunAt, enabled)]
    ensures id !in s.jobs ==> Step(s, Edit(id, enabled)) == s
    ensures Step(s, Remove(id)).jobs == s.jobs - {id}
  {
  }
}
