/**
 The agent service as it changes its rows and directories, and the agent's own
 delivery loop. Every method of `AgentQueue` is tied to steps of AgentTasks, whose
 invariant it keeps.
 */
module AgentQueue {
  import opened Wrappers
  import opened AgentTasks

  datatype Reply = NotFound | WrongServer | AlreadyFinalized | Accepted

  class Queue {
    var clock: Time
    var tasks: seq<Task>
    var sweep: Sweep
    var jobs: seq<Job>
    var dirs: set<Dir>
    var reports: map<ReportId, Report>
    var chains: seq<seq<TaskId>>
    ghost var handed: seq<TaskId>
    ghost var uploaded: set<TaskId>

    ghost function Contents(): State
      reads this
    {
      State(clock, tasks, chains, handed, reports, sweep, jobs, dirs, uploaded)
    }

    ghost predicate Valid()
      reads this
    {
      Inv(Contents())
    }

    constructor (now: Time)
      ensures Valid() && Contents() == Init(now)
    {
      clock, tasks, sweep, jobs, dirs, reports := now, [], NoSweep, [], {}, map[];
      chains, handed, uploaded := [], [], {};
    }

    method EnqueueTask(server: ServerId, kind: Kind, payload: Payload) returns (t: TaskId)
      requires Valid()
      modifies this`tasks, this`chains
      ensures Valid() && Contents() == Step(old(Contents()), Enqueue(server, kind, payload))
      ensures t == |old(tasks)|
    {
      StepKeeps(Contents(), Enqueue(server, kind, payload));
      t := |tasks|;
      tasks := tasks + [Task(server, kind, payload, QUEUED, None, clock, |chains|, 0, None)];
      chains := chains + [[t]];
    }

    /** The claiming statement; `ids` is what its inner query picks. */
    method Poll(server: ServerId, ids: seq<TaskId>)
      requires Valid() && Claims(Contents(), server, ids)
      modifies this`tasks, this`handed
      ensures Valid() && Contents() == Step(old(Contents()), Event.Poll(server, ids))
      ensures forall i :: 0 <= i < |ids| ==> ids[i] !in old(handed)
    {
      StepKeeps(Contents(), Event.Poll(server, ids));
      ghost var after := Step(Contents(), Event.Poll(server, ids));
      var rows := tasks;
      tasks := seq(|rows|, t requires 0 <= t < |rows| => if t in ids then rows[t].(status := RUNNING) else rows[t]);
      handed := handed + ids;
      assert tasks == after.tasks;
      assert Contents() == after;
    }

    /** taskResult, its check and its write as one step. */
    method TaskResult(t: TaskId, server: ServerId, completed: bool, error: Option<string>) returns (reply: Reply)
      requires Valid()
      modifies this`tasks, this`jobs
      ensures Valid() && Contents() == Step(old(Contents()), FullReport(t, server, completed, error))
      ensures reply == Accepted <==> Accepts(old(Contents()), t, server)
      ensures reply == NotFound <==> t >= |old(tasks)|
      ensures reply == WrongServer <==> t < |old(tasks)| && old(tasks)[t].server != server
      ensures reply == AlreadyFinalized <==>
                t < |old(tasks)| && old(tasks)[t].server == server && old(tasks)[t].status in {COMPLETED, FAILED}
      ensures reply != Accepted ==> Contents() == old(Contents())
    {
      StepKeeps(Contents(), FullReport(t, server, completed, error));
      if t >= |tasks| { return NotFound; }
      if tasks[t].server != server { return WrongServer; }
      if tasks[t].status == COMPLETED || tasks[t].status == FAILED { return AlreadyFinalized; }
      ghost var after := Step(Contents(), FullReport(t, server, completed, error));
      var status := if completed then COMPLETED else FAILED;
      tasks := tasks[t := tasks[t].(status := status, error := error, job := Some(|jobs|))];
      jobs := jobs + [Job(t, tasks[t].payload, status, Chaining, Undecided)];
      assert Contents() == after;
      return Accepted;
    }

    /** The sweep's guarded update, row by row. */
    method UpdateStale()
      requires Valid() && sweep.Selected?
      modifies this`tasks, this`sweep
      ensures Valid() && Contents() == Step(old(Contents()), Event.UpdateStale)
    {
      ghost var was := Contents();
      ghost var goal := UpdateStep(was, sweep.stale);
      StepKeeps(was, Event.UpdateStale);
      var stale, swept: set<TaskId>, t: TaskId := sweep.stale, {}, 0;
      while t < |tasks|
        invariant 0 <= t <= |tasks| == |was.tasks| == |goal.tasks|
        invariant forall u :: 0 <= u < t ==> tasks[u] == goal.tasks[u]
        invariant forall u :: t <= u < |tasks| ==> tasks[u] == was.tasks[u]
        invariant forall u :: u in swept <==> u in stale && u < t && AgentTasks.Open(was, u)
        invariant Contents() == was.(tasks := tasks)
      {
        if t in stale && tasks[t].status != COMPLETED && tasks[t].status != FAILED {
          tasks := tasks[t := tasks[t].(status := FAILED, error := Some(SWEEP_ERROR))];
          swept := swept + {t};
        }
        t := t + 1;
      }
      sweep := Updated(stale, swept);
      assert tasks == goal.tasks && swept == goal.sweep.swept;
      assert Contents() == goal;
    }

    /** The re-read and the walk over the selection: hooks for what looks swept. */
    method RereadStale()
      requires sweep.Updated?
      modifies this`tasks, this`jobs, this`sweep
      ensures Contents() == Step(old(Contents()), Event.RereadStale)
      ensures old(Valid() && RereadIsOwn(Contents(), Event.RereadStale)) ==> Valid()
    {
      ghost var was := Contents();
      if Inv(was) && RereadIsOwn(was, Event.RereadStale) { StepKeeps(was, Event.RereadStale); }
      var stale, swept, i := sweep.stale, sweep.swept, 0;
      sweep := NoSweep;
      if swept == {} { return; }
      ghost var goal := OweSwept(Contents(), stale);
      assert stale[0..] == stale;
      while i < |stale|
        invariant 0 <= i <= |stale|
        invariant OweSwept(Contents(), stale[i..]) == goal
      {
        var t := stale[i];
        assert stale[i..][0] == t && stale[i..][1..] == stale[i + 1..];
        if t < |tasks| && tasks[t].status == FAILED && tasks[t].error == Some(SWEEP_ERROR) {
          var job := Job(t, tasks[t].payload, FAILED, Chaining, Undecided);
          ghost var next := Owe(Contents(), t);
          tasks, jobs := tasks[t := tasks[t].(job := Some(|jobs|))], jobs + [job];
          assert Contents() == next;
        }
        i := i + 1;
      }
    }

    /** The first statement of handleTaskTermination; `enqueues` says whether its insert succeeds. */
    method ChainNext(j: JobId, enqueues: bool)
      requires Valid() && j < |jobs| && jobs[j].pc == Chaining
      modifies this`tasks, this`chains, this`jobs
      ensures Valid() && Contents() == Step(old(Contents()), Hook(j, enqueues))
    {
      ghost var after := Step(Contents(), Hook(j, enqueues));
      StepKeeps(Contents(), Hook(j, enqueues));
      assert JobOk(Contents(), j) && TaskOk(Contents(), jobs[j].task, Pending(Contents()));
      var job := jobs[j];
      var link := NothingToEnqueue;
      if job.outcome == COMPLETED && job.payload.chain != [] && job.payload.chain[0].Entry? {
        link := if enqueues then Enqueued else EnqueueFailed;
        if enqueues {
          var head, rest := job.payload.chain[0], job.payload.chain[1..];
          var consumes := head.kind == VOLUME_IMPORT || head.kind == RESTORE;
          var source := if consumes && head.payload.source.None? then Some(OfTask(job.task)) else head.payload.source;
          var payload := Payload(source, if rest != [] then rest else head.payload.chain);
          var chain := tasks[job.task].chain;
          tasks := tasks + [Task(head.server, head.kind, payload, QUEUED, None, clock, chain, |chains[chain]|, None)];
          chains := chains[chain := chains[chain] + [|tasks| - 1]];
        }
      }
      jobs := jobs[j := job.(pc := CleaningInput, link := link)];
      assert Contents() == after;
    }

    method CleanInput(j: JobId)
      requires Valid() && j < |jobs| && jobs[j].pc == CleaningInput
      modifies this`jobs, this`dirs
      ensures Valid() && Contents() == Step(old(Contents()), Hook(j, false))
    {
      StepKeeps(Contents(), Hook(j, false));
      var job := jobs[j];
      if job.payload.source.Some? { dirs := dirs - {job.payload.source.value}; }
      jobs := jobs[j := job.(pc := CleaningOutput)];
    }

    method CleanOutput(j: JobId)
      requires Valid() && j < |jobs| && jobs[j].pc == CleaningOutput
      modifies this`jobs, this`dirs
      ensures Valid() && Contents() == Step(old(Contents()), Hook(j, false))
    {
      StepKeeps(Contents(), Hook(j, false));
      var job := jobs[j];
      if job.link != Enqueued { dirs := dirs - {OfTask(job.task)}; }
      jobs := jobs[j := job.(pc := Finished)];
    }
  }

  // ── the agent's side: reportResult ──────────────────────────────────

  /** What one POST of a result meets: no answer, or an HTTP status. */
  datatype Attempt = NoAnswer | Answer(status: nat)

  predicate Transient(status: nat) {
    status == 408 || status == 409 || status == 425 || status == 429
  }

  /** Whether the agent posts again after this attempt. */
  predicate Retries(a: Attempt) {
    a.NoAnswer? || Transient(a.status) || a.status >= 500
  }

  const ATTEMPTS := 3

  /** Post until an answer settles the matter, three times at most. A settled report was
      accepted or is beyond retrying; an unsettled one is left to the stale sweep. */
  method ReportResult(attempts: seq<Attempt>) returns (posts: nat, settled: bool)
    requires |attempts| == ATTEMPTS
    ensures 1 <= posts <= ATTEMPTS
    ensures forall k :: 0 <= k < posts - 1 ==> Retries(attempts[k])
    ensures settled <==> !Retries(attempts[posts - 1])
    ensures !settled ==> posts == ATTEMPTS
    ensures posts <= 3
    ensures settled <==> var last := attempts[posts - 1];
                         last.Answer? && last.status < 500 && last.status !in {408, 409, 425, 429}
  {
    posts, settled := 0, false;
    while posts < ATTEMPTS && !settled
      invariant 0 <= posts <= ATTEMPTS && (settled ==> posts > 0)
      invariant forall k :: 0 <= k < posts - 1 ==> Retries(attempts[k])
      invariant posts > 0 ==> (settled <==> !Retries(attempts[posts - 1]))
    {
      var a := attempts[posts];
      posts := posts + 1;
      if a.Answer? {
        if a.status >= 400 {
          settled := !Transient(a.status) && a.status < 500;
        } else {
          settled := true;
        }
      }
    }
  }
}
