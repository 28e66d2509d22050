/** What holds in every state the system can reach from its start. */
module ProtocolTheorems {
  import opened Wrappers
  import opened TaskStore
  import opened WorkerState
  import opened Protocol
  import opened ProtocolProof
  import O = Orchestrator

  lemma Reached(steps: seq<Step>)
    ensures Inv(Steps(START, steps))
  {
    assert Inv(START);
    StepsInv(START, steps);
  }

  // ---- Tasks -----------------------------------------------------------------

  /** Under any loss, retry, restart or cancellation, no task is executed twice, on any agent. */
  lemma TasksRunAtMostOnce(steps: seq<Step>, i: nat, j: nat)
    requires i < j < |Steps(START, steps).executed|
    ensures Steps(START, steps).executed[i] != Steps(START, steps).executed[j]
  {
    Reached(steps);
  }

  lemma NextEvolves(y: System, step: Step)
    requires Inv(y)
    ensures StoreEvolves(y.store, Next(y, step).store)
  {
    hide StoreEvolves, Inv, Apply, Next, StoreCall, StoreInv;
    StoreOf(y);
    OneCall(y, step);
    if StoreCall(y, step).Some? {
      ApplyFacts(y.store, StoreCall(y, step).value);
    } else {
      StandstillFacts(y.store);
    }
  }

  lemma {:induction false} StepsEvolve(y: System, steps: seq<Step>)
    requires Inv(y)
    ensures StoreEvolves(y.store, Steps(y, steps).store)
    decreases |steps|
  {
    hide Inv, StoreEvolves;
    if steps == [] {
      StoreOf(y);
      StandstillFacts(y.store);
    } else {
      NextInv(y, steps[0]);
      NextEvolves(y, steps[0]);
      StepsEvolve(Next(y, steps[0]), steps[1..]);
      EvolvesTransitive(y.store, Next(y, steps[0]).store, Steps(y, steps).store);
    }
  }

  /** Once completed, failed or cancelled, a task row is never written again; ranks never fall. */
  lemma TaskRowsOnlyAdvance(before: seq<Step>, after: seq<Step>, id: TaskId)
    requires id in Steps(START, before).store.rows
    ensures
      var old_, new_ := Steps(START, before).store, Steps(Steps(START, before), after).store;
      && id in new_.rows
      && old_.rows[id].status.Rank() <= new_.rows[id].status.Rank()
      && (old_.rows[id].status.Terminal() ==> new_.rows[id] == old_.rows[id])
  {
    Reached(before);
    StepsEvolve(Steps(START, before), after);
    assert Evolves(Steps(START, before).store.rows[id], Steps(Steps(START, before), after).store.rows[id]);
  }

  /**
    A worker never holds more than one unacknowledged completion, and the one it
    holds can never get stuck: after any restart, abort or cancellation the
    controller still accepts it, and a post that gets through leaves the row
    terminal and the worker free to claim again.
   */
  lemma CompletionsNeverStick(steps: seq<Step>, agent: AgentId, id: TaskId, now: int)
    requires var y := Steps(START, steps);
             agent in y.workers && y.workers[agent].phase.Idle? && id in y.workers[agent].pending
    ensures
      var y := Steps(START, steps);
      var y' := Next(y, Post(agent, id, true, true, now));
      && y.workers[agent].pending.Keys == {id}
      && FinishReply(y.store, id, agent)
      && agent in y'.workers && y'.workers[agent].pending == map[]
      && id in y'.store.rows && y'.store.rows[id].status.Terminal()
      && Delivered(y'.store, id).None?
  {
    hide Steps, Inv, Posted, FinishReply, Delivered;
    var y := Steps(START, steps);
    Reached(steps);
    PendingSettles(y, agent, id, now);
    assert Next(y, Post(agent, id, true, true, now)) == Posted(y, agent, id, true, now);
  }

  lemma PendingSettles(y: System, agent: AgentId, id: TaskId, now: int)
    requires Inv(y) && Ready(y, agent) && id in y.workers[agent].pending
    ensures
      var y' := Posted(y, agent, id, true, now);
      && y.workers[agent].pending.Keys == {id}
      && FinishReply(y.store, id, agent)
      && agent in y'.workers && y'.workers[agent].pending == map[]
      && id in y'.store.rows && y'.store.rows[id].status.Terminal()
      && Delivered(y'.store, id).None?
  {
    hide Inv, WorkerInv;
    PendingOf(y, agent, id);
    PendingBound(y, agent);
    OnlyPending(y.workers[agent].pending, id);
    assert FinishReply(y.store, id, agent) && y.workers[agent].pending[id].status.Terminal();
  }

  lemma PendingBound(y: System, agent: AgentId)
    requires Inv(y) && agent in y.workers
    ensures |y.workers[agent].pending| <= 1
  {
    hide Inv;
    WorkerOf(y, agent);
  }

  /** Every secret is held for exactly as long as its task is queued or running. */
  lemma SecretsLiveWithTheirTasks(steps: seq<Step>, id: TaskId)
    ensures var s := Steps(START, steps).store;
            Delivered(s, id) == if LiveRow(s, id) then IssuedFor(s, id) else None
  {
    Reached(steps);
  }

  /** A worker executes a task with exactly the secret the task was created with. */
  lemma WorkersReceiveIssuedSecrets(steps: seq<Step>, agent: AgentId)
    requires var y := Steps(START, steps); agent in y.workers && y.workers[agent].phase.Executing?
    ensures var y := Steps(START, steps);
            y.workers[agent].phase.secret == IssuedFor(y.store, y.workers[agent].phase.task)
  {
    Reached(steps);
    WorkerOf(Steps(START, steps), agent);
  }

  // ---- What a finished task leaves in its row -------------------------------------

  /** A paired service is to be started while one is active. */
  predicate Occupied(w: Worker, work: Work) {
    work.ServiceStart? && exists kind: Service, k :: k in w.services.Of(kind)
  }

  /**
    A worker runs its task and the post of the completion arrives while the row still
    runs: what the handler returned is in the row.
   */
  lemma WorkOutcome(before: seq<Step>, agent: AgentId, now: int, out: Outcome, acknowledged: bool, later: int)
    requires var y := Steps(START, before);
      && agent in y.workers && y.workers[agent].phase.Executing?
      && y.workers[agent].phase.task in y.store.rows
      && y.store.rows[y.workers[agent].phase.task].status == Running
    ensures
      var y := Steps(START, before);
      var id := y.workers[agent].phase.task;
      var row := y.store.rows[id];
      var y' := Next(Next(y, Execute(agent, now, out)), Post(agent, id, true, acknowledged, later));
      && id in y'.store.rows
      && var row' := y'.store.rows[id];
        && (out.Success? && !Occupied(y.workers[agent], row.work) ==>
             row'.status == Completed && row'.result == (if out.result.Some? then out.result else row.result))
        && (out.Success? && Occupied(y.workers[agent], row.work) ==> row'.status == Failed && row'.result == row.result)
        && (out.Failure? ==>
             && row'.status == (if out.cancelled then Cancelled else Failed) && row'.error == out.error
             && row'.result == (if out.result.Some? then out.result else row.result))
        && (out.Crash? ==> row' == row)
  {
    hide Steps, Inv, StoreInv;
    var y := Steps(START, before);
    Reached(before);
    ExecutorHolds(y, agent);
    WorkerOf(y, agent);
    NoneActiveIs(y.workers[agent].services);
    PostedRow(y, agent, now, out, acknowledged, later);
  }

  lemma NoneActiveIs(sv: Services)
    ensures sv.NoneActive() <==> !exists kind: Service, k :: k in sv.Of(kind)
  {
    if !sv.NoneActive() {
      var kind := if sv.database != map[] then Postgres else if sv.web != map[] then Web
                  else if sv.redis != map[] then Redis else MySql;
      assert sv.Of(kind) != map[];
      var k :| k in sv.Of(kind);
    }
  }

  lemma PostedRow(y: System, agent: AgentId, now: int, out: Outcome, acknowledged: bool, later: int)
    requires Working(y, agent) && y.workers[agent].pending == map[]
    requires y.store.rows[y.workers[agent].phase.task].agent == agent
    requires y.store.rows[y.workers[agent].phase.task].status == Running
    ensures
      var id := y.workers[agent].phase.task;
      var row := y.store.rows[id];
      var free := !row.work.ServiceStart? || y.workers[agent].services.NoneActive();
      var y' := Next(Next(y, Execute(agent, now, out)), Post(agent, id, true, acknowledged, later));
      && id in y'.store.rows
      && var row' := y'.store.rows[id];
        && (out.Success? && free ==>
             row'.status == Completed && row'.result == (if out.result.Some? then out.result else row.result))
        && (out.Success? && !free ==> row'.status == Failed && row'.result == row.result)
        && (out.Failure? ==>
             && row'.status == (if out.cancelled then Cancelled else Failed) && row'.error == out.error
             && row'.result == (if out.result.Some? then out.result else row.result))
        && (out.Crash? ==> row' == row)
  {
    hide ServicesAfter, StopsAfter, CompletionOf, Services.NoneActive;
    CompletionIs(y.workers[agent].services, y.store.rows[y.workers[agent].phase.task].work, out);
  }

  lemma CompletionIs(sv: Services, work: Work, out: Outcome)
    ensures var done, free := CompletionOf(sv, work, out), !work.ServiceStart? || sv.NoneActive();
      && (out.Success? && free ==> done == Some(Completion(Completed, out.result, None)))
      && (out.Success? && !free ==> done == Some(Completion(Failed, None, Some(Reported(0)))))
      && (out.Failure? ==> done == Some(Completion(if out.cancelled then Cancelled else Failed, out.result, out.error)))
      && (out.Crash? ==> done == None)
  {
  }

  /** What running a handler does to the four maps: a start adds its entry, a stop drops the one it names. */
  lemma WorkServices(y: System, agent: AgentId, now: int, out: Outcome, kind: Service)
    requires agent in y.workers && y.workers[agent].phase.Executing? && y.workers[agent].phase.task in y.store.rows
    ensures
      var id := y.workers[agent].phase.task;
      var work, w := y.store.rows[id].work, y.workers[agent];
      var y' := Next(y, Execute(agent, now, out));
      && agent in y'.workers
      && var entries, entries' := w.services.Of(kind), y'.workers[agent].services.Of(kind);
        if work == ServiceStart(kind) && out.Success? && !Occupied(w, work) then entries' == map[id := now + out.lifetime]
        else if work.ServiceStop? && work.service == kind && (out.Success? || (out.Crash? && out.removed))
        then entries' == entries - {work.server}
        else entries' == entries
  {
    NoneActiveIs(y.workers[agent].services);
    ServicesOfKind(y.workers[agent].services, y.workers[agent].phase.task,
                   y.store.rows[y.workers[agent].phase.task].work, now, out, kind);
    hide CompletionOf, StopsAfter, ServicesAfter, Services.NoneActive, Services.Of;
  }

  lemma ServicesOfKind(sv: Services, id: TaskId, work: Work, now: int, out: Outcome, kind: Service)
    ensures ServicesAfter(sv, id, work, now, out).Of(kind)
         == if work == ServiceStart(kind) && out.Success? && sv.NoneActive() then map[id := now + out.lifetime]
            else if work.ServiceStop? && work.service == kind && (out.Success? || (out.Crash? && out.removed))
            then sv.Of(kind) - {work.server}
            else sv.Of(kind)
  {
  }

  /** What a sweep does: it drops only what is past its deadline, or anything after 20 seconds of silence. */
  lemma SweepServices(y: System, agent: AgentId, now: int, stopped: set<TaskId>, kind: Service, id: TaskId)
    requires agent in y.workers && y.workers[agent].phase.Idle?
    ensures
      var w, y' := y.workers[agent], Next(y, Tidy(agent, now, stopped));
      && agent in y'.workers
      && var entries, entries' := w.services.Of(kind), y'.workers[agent].services.Of(kind);
        && (id in entries' <==> id in entries && !(id in stopped && (entries[id] <= now || now > w.lastContact + 20)))
        && (id in entries' ==> entries'[id] == entries[id])
  {
  }

  /** What counts as contact: an answered heartbeat, a delivered task, an accepted completion; nothing else moves the time. */
  lemma ContactIsRenewed(steps: seq<Step>, agent: AgentId, step: Step)
    requires agent in Steps(START, steps).workers
    ensures
      var y := Steps(START, steps);
      var w, y' := y.workers[agent], Next(y, step);
      && agent in y'.workers
      && y'.workers[agent].lastContact ==
           if step.Heartbeat? && step.agent == agent && w.phase.Idle? then step.now
           else if step.ClaimTask? && step.agent == agent && step.delivered && w.phase.Idle? && w.pending == map[]
                   && OldestQueued(y.store, agent, step.id) then step.now
           else if step.Post? && step.agent == agent && step.arrives && step.acknowledged && w.phase.Idle?
                   && step.id in w.pending then step.now
           else w.lastContact
  {
    hide Steps, Inv;
    var y := Steps(START, steps);
    Reached(steps);
    if step.Post? {
      if step.agent == agent && Ready(y, agent) && step.id in y.workers[agent].pending {
        PendingSettles(y, agent, step.id, step.now);
      }
      hide FinishReply, Finish;
    } else {
      ContactOtherwise(y, agent, step);
      hide Next;
    }
  }

  lemma ContactOtherwise(y: System, agent: AgentId, step: Step)
    requires agent in y.workers && !step.Post?
    ensures agent in Next(y, step).workers
    ensures Next(y, step).workers[agent].lastContact ==
      if step.Heartbeat? && step.agent == agent && y.workers[agent].phase.Idle? then step.now
      else if step.ClaimTask? && step.agent == agent && step.delivered && y.workers[agent].phase.Idle?
              && y.workers[agent].pending == map[] && OldestQueued(y.store, agent, step.id) then step.now
      else y.workers[agent].lastContact
  {
    hide Create, Claim, Progress, Abort, CancelQueued, Recover, ServicesAfter, CompletionOf, StopsAfter, TaskFor,
         AwaitsCreation, Observable, Tidied, OldestQueued, O.Advance, BoundedSecret, Delivered, LoseRun;
  }

  // ---- Paired services ---------------------------------------------------------

  /** At most one PostgreSQL, Redis, MySQL or web service is active on a worker. */
  lemma AtMostOnePairedService(steps: seq<Step>, agent: AgentId)
    requires agent in Steps(START, steps).workers
    ensures Steps(START, steps).workers[agent].services.Total() <= 1
  {
    Reached(steps);
    WorkerOf(Steps(START, steps), agent);
  }

  lemma StopRowEarned(y: System, stop: TaskId)
    requires Inv(y) && CompletedRow(y.store, stop) && y.store.rows[stop].work.ServiceStop?
    ensures stop in y.stops && StopInv(y, stop)
  {
    hide StoreInv, QueueDiscipline, WorkersInv, StopInv, RunsInv, ExecutedInv;
    assert Earned(y.executed, y.stops, stop, y.store.rows[stop]);
  }

  lemma CompletedStopInState(y: System, stop: TaskId)
    requires Inv(y) && CompletedRow(y.store, stop) && y.store.rows[stop].work.ServiceStop?
    requires var work := y.store.rows[stop].work;
             work.server in y.store.rows && Ahead(y.store.rows[work.server], y.store.rows[stop])
    ensures var row := y.store.rows[stop];
            NotActive(y.workers, row.agent, row.work.service, row.work.server)
  {
    StopRowEarned(y, stop);
  }

  /**
    Drain: once a stop task has completed, the service it names is not active
    and never becomes active again, whatever happens later, provided the start
    task was inserted before it and the clock read later for the stop task.
   */
  lemma CompletedStopIsFinal(before: seq<Step>, after: seq<Step>, stop: TaskId)
    requires var y := Steps(START, before);
      && CompletedRow(y.store, stop) && y.store.rows[stop].work.ServiceStop?
      && y.store.rows[stop].work.server in y.store.rows
      && Ahead(y.store.rows[y.store.rows[stop].work.server], y.store.rows[stop])
    ensures var row := Steps(START, before).store.rows[stop];
            NotActive(Steps(Steps(START, before), after).workers, row.agent, row.work.service, row.work.server)
  {
    var y := Steps(START, before);
    var y' := Steps(y, after);
    Reached(before);
    StepsInv(y, after);
    TaskRowsOnlyAdvance(before, after, stop);
    StepsEvolve(y, after);
    hide Inv, Steps;
    assert Evolves(y.store.rows[y.store.rows[stop].work.server], y'.store.rows[y.store.rows[stop].work.server]);
    CompletedStopInState(y', stop);
  }

  // ---- Runs ----------------------------------------------------------------------

  ghost predicate RowsOfRun(s: Store, run: RunId, ids: set<TaskId>) {
    forall id :: id in ids <==> id in s.rows && s.rows[id].run == run
  }

  lemma RunRows(y: System, run: RunId)
    requires Inv(y) && run in y.runs
    ensures RowsOfRun(y.store, run, TaskIds(y.runs[run]))
  {
    RunOf(y, run);
    hide Inv, O.RunInv;
    var r := y.runs[run];
    forall id | id in TaskIds(r) ensures id in y.store.rows && y.store.rows[id].run == run {
      var i :| 0 <= i < |r.tasks| && r.tasks[i].id == id;
      assert TaskBacked(y.store, run, r, i);
    }
  }

  /**
    A run that returned normally leaves nothing behind: all its tasks completed,
    none keeps a secret, and its service is not active on the target. No clock
    assumption is needed.
   */
  lemma ReturnedRunLeavesNothing(steps: seq<Step>, run: RunId, id: TaskId)
    requires var y := Steps(START, steps); run in y.runs && y.runs[run].pc.Returned?
    ensures
      var y := Steps(START, steps);
      var r := y.runs[run];
      && (id in y.store.rows && y.store.rows[id].run == run ==>
            y.store.rows[id].status.Completed? && Delivered(y.store, id).None?)
      && r.server.Some?
      && NotActive(y.workers, r.target, O.ServiceOf(r.flow), r.server.value)
  {
    hide Steps, Inv, NotActive;
    var y := Steps(START, steps);
    Reached(steps);
    if id in y.store.rows && y.store.rows[id].run == run { ReturnedTasksCompleted(y, run, id); }
    ReturnedServiceGone(y, run);
  }

  lemma ReturnedTasksCompleted(y: System, run: RunId, id: TaskId)
    requires Inv(y) && run in y.runs && y.runs[run].pc.Returned?
    requires id in y.store.rows && y.store.rows[id].run == run
    ensures y.store.rows[id].status.Completed? && Delivered(y.store, id).None?
  {
    hide RunStoreInv, WorkersInv, StopsInv, EarnedInv, ExecutedInv, QueueDiscipline;
    RunRows(y, run);
    var r := y.runs[run];
    var i :| 0 <= i < |r.tasks| && r.tasks[i].id == id;
    ReturnedTaskCompleted(y, run, i);
    assert !LiveRow(y.store, id);
  }

  lemma ReturnedTaskCompleted(y: System, run: RunId, i: nat)
    requires Inv(y) && run in y.runs && y.runs[run].pc.Returned? && i < |y.runs[run].tasks|
    ensures CompletedRow(y.store, y.runs[run].tasks[i].id)
  {
    RunOf(y, run);
    hide CoreInv, RunsInv, CompletedRow, O.Flags, O.Shape, O.PlanFacts;
    assert O.Position(y.runs[run]);
  }

  /**
    What a waiting run can learn of its task: an answer once the row is completed, with
    the evidence the row holds, and a failure of the wait until then.
   */
  lemma RunSeesItsTask(steps: seq<Step>, run: RunId, valid: bool, now: int)
    requires var y := Steps(START, steps); run in y.runs && y.runs[run].pc.Wait?
    ensures var y := Steps(START, steps);
      var id := y.runs[run].pc.task;
      && id in y.store.rows
      && var row := y.store.rows[id];
        && (Next(y, RunEvent(run, O.Answered(valid), now)).runs[run] != y.runs[run]
            <==> row.status == Completed && (valid <==> row.result.Some? && row.result.value.valid))
        && (Next(y, RunEvent(run, O.Broke, now)).runs[run] != y.runs[run] <==> row.status != Completed)
  {
    hide Steps, Inv, O.RunInv, RunStoreInv;
    var y := Steps(START, steps);
    Reached(steps);
    RunOf(y, run);
    WaitIsBacked(y.store, y.stops, run, y.runs[run]);
    AnswersMove(y.runs[run], valid);
    hide O.Advance;
  }

  lemma WaitIsBacked(s: Store, stops: map<TaskId, bool>, run: RunId, r: O.Run)
    requires O.RunInv(r) && RunStoreInv(s, stops, run, r) && r.pc.Wait?
    ensures r.pc.task in s.rows && r.pc.i < |r.plan|
  {
    assert O.Position(r) && TaskBacked(s, run, r, r.pc.i);
    hide O.Shape, O.Flags;
  }

  lemma AnswersMove(r: O.Run, valid: bool)
    requires r.pc.Wait? && r.pc.i < |r.plan|
    ensures O.Advance(r, O.Answered(valid)) != r && O.Advance(r, O.Broke) != r
  {
    O.HandleKeepsPlan(r);
    hide O.Handle, O.Inspected;
  }

  /** The work, the Agent and the secret of the `i`-th task of a MySQL run with `n` jobs. */
  predicate MySqlTask(y: System, r: O.Run, i: nat, n: nat, id: TaskId) {
    && id in y.store.rows && r.tasks != []
    && var row := y.store.rows[id];
      && row.work == (if i == 0 then ServiceStart(MySql) else if i == 1 then Prepare
                      else if i < n + 2 then Measure(i - 2) else if i == n + 2 then ClientCleanup
                      else ServiceStop(MySql, r.tasks[0].id))
      && row.agent == (if i == 0 || i == n + 3 then r.target else r.generator)
      && IssuedFor(y.store, id) == (if i == n + 3 then None else Some(r.secret))
  }

  /** The same for PostgreSQL, where the checkpoint drill adds a probe before and one after the measurements. */
  predicate PostgresTask(y: System, r: O.Run, i: nat, id: TaskId)
    requires r.flow.PostgresFlow?
  {
    var n, first := r.flow.jobs, if r.flow.checkpoint then 2 else 1;
    && id in y.store.rows && r.tasks != []
    && var row := y.store.rows[id];
      && row.work == (if i == 0 then ServiceStart(Postgres) else if i < first then CheckpointBaseline
                      else if i < first + n then Measure(i - first)
                      else if i == first + n && r.flow.checkpoint then CheckpointPost
                      else if i + 2 == |r.tasks| && r.flow.recovery then RecoveryDrill
                      else ServiceStop(Postgres, r.tasks[0].id))
      && row.agent == (if first <= i < first + n then r.generator else r.target)
      && IssuedFor(y.store, id) == None
  }

  /**
    A run that returned created exactly the tasks of its suite, in order, on the right
    Agents, with its own secret where one is needed; every row is completed.
   */
  lemma ReturnedRunTasks(steps: seq<Step>, run: RunId)
    requires var y := Steps(START, steps); run in y.runs && y.runs[run].pc.Returned?
    ensures
      var y := Steps(START, steps);
      var r := y.runs[run];
      && (forall i :: 0 <= i < |r.tasks| ==> CompletedRow(y.store, r.tasks[i].id))
      && (match r.flow
          case MySqlFlow(n) =>
            |r.tasks| == n + 4 && forall i :: 0 <= i < |r.tasks| ==> MySqlTask(y, r, i, n, r.tasks[i].id)
          case PostgresFlow(n, checkpoint, recovery) =>
            && |r.tasks| == n + 2 + (if checkpoint then 2 else 0) + (if recovery then 1 else 0)
            && forall i :: 0 <= i < |r.tasks| ==> PostgresTask(y, r, i, r.tasks[i].id))
  {
    hide Steps, Inv, O.RunInv, RunStoreInv, MySqlTask, PostgresTask, CompletedRow;
    var y := Steps(START, steps);
    var r := y.runs[run];
    Reached(steps);
    RunOf(y, run);
    ReturnedLength(r);
    forall i | 0 <= i < |r.tasks|
      ensures CompletedRow(y.store, r.tasks[i].id)
      ensures r.flow.MySqlFlow? ==> MySqlTask(y, r, i, r.flow.jobs, r.tasks[i].id)
      ensures r.flow.PostgresFlow? ==> PostgresTask(y, r, i, r.tasks[i].id)
    {
      ReturnedTaskCompleted(y, run, i);
      if r.flow.MySqlFlow? { MySqlTaskIs(y, run, i); } else { PostgresTaskIs(y, run, i); }
    }
  }

  lemma ReturnedLength(r: O.Run)
    requires O.RunInv(r) && r.pc.Returned?
    ensures |r.tasks| == |r.plan| == O.TotalSteps(r.flow) && O.PlanFacts(r.flow, r.plan) && r.server == Some(r.tasks[0].id)
    ensures forall i :: 0 <= i < |r.tasks| ==> r.tasks[i].stage == r.plan[i]
  {
    assert O.OnPlan(r) && O.Position(r);
    hide O.Shape;
  }

  lemma MySqlTaskIs(y: System, run: RunId, i: nat)
    requires Inv(y) && run in y.runs && y.runs[run].pc.Returned? && i < |y.runs[run].tasks| && y.runs[run].flow.MySqlFlow?
    ensures MySqlTask(y, y.runs[run], i, y.runs[run].flow.jobs, y.runs[run].tasks[i].id)
  {
    hide Inv, O.RunInv;
    var r := y.runs[run];
    RunOf(y, run);
    ReturnedLength(r);
    assert TaskBacked(y.store, run, r, i);
  }

  lemma PostgresTaskIs(y: System, run: RunId, i: nat)
    requires Inv(y) && run in y.runs && y.runs[run].pc.Returned? && i < |y.runs[run].tasks| && y.runs[run].flow.PostgresFlow?
    ensures PostgresTask(y, y.runs[run], i, y.runs[run].tasks[i].id)
  {
    hide Inv, O.RunInv;
    var r := y.runs[run];
    RunOf(y, run);
    ReturnedLength(r);
    assert TaskBacked(y.store, run, r, i);
  }

  /** What a returned run was told: preparation, every measurement, the baseline and the recovery brought valid evidence. */
  lemma ReturnedRunHasEvidence(steps: seq<Step>, run: RunId, id: TaskId)
    requires var y := Steps(START, steps); run in y.runs && y.runs[run].pc.Returned?
    requires var y := Steps(START, steps); id in y.store.rows && y.store.rows[id].run == run
    requires var work := Steps(START, steps).store.rows[id].work;
      work.Prepare? || work.Measure? || work.CheckpointBaseline? || work.RecoveryDrill?
    ensures var row := Steps(START, steps).store.rows[id];
      row.status == Completed && row.result.Some? && row.result.value.valid
  {
    hide Steps, Inv, O.RunInv;
    var y := Steps(START, steps);
    var r := y.runs[run];
    Reached(steps);
    RunOf(y, run);
    RunRows(y, run);
    var i :| 0 <= i < |r.tasks| && r.tasks[i].id == id;
    ReturnedLength(r);
    ReturnedSteps(r);
    assert TaskBacked(y.store, run, r, i) && StepBacked(y.store, r.tasks[i]);
  }

  lemma ReturnedSteps(r: O.Run)
    requires O.RunInv(r) && r.pc.Returned?
    ensures r.steps == |r.tasks|
  {
    assert O.OnPlan(r) && O.Position(r);
  }

  lemma EndpointsBacked(s: Store, stops: map<TaskId, bool>, run: RunId, r: O.Run)
    requires O.RunInv(r) && RunStoreInv(s, stops, run, r)
    requires (r.pc.Returned? || r.pc.Raised?) && r.server.Some?
    ensures |r.tasks| >= 2
    ensures var stop := r.tasks[|r.tasks| - 1].id;
      && r.tasks[0].id == r.server.value && r.server.value in s.rows && stop in s.rows
      && s.rows[r.server.value].agent == r.target && s.rows[stop].agent == r.target
      && s.rows[r.server.value].order < s.rows[stop].order
      && s.rows[stop].work == ServiceStop(O.ServiceOf(r.flow), r.server.value)
  {
    O.EndedShape(r);
    hide O.RunInv;
    assert TaskBacked(s, run, r, |r.tasks| - 1) && TaskBacked(s, run, r, 0);
  }

  lemma ReturnedHasServer(r: O.Run)
    requires O.RunInv(r) && r.pc.Returned?
    ensures r.server.Some? && O.StopMade(r.tasks)
  {
    O.EndedOnPlan(r);
  }

  lemma ReturnedServiceGone(y: System, run: RunId)
    requires Inv(y) && run in y.runs && y.runs[run].pc.Returned?
    ensures var r := y.runs[run];
            r.server.Some? && NotActive(y.workers, r.target, O.ServiceOf(r.flow), r.server.value)
  {
    hide Inv, O.RunInv, NotActive, TaskBacked;
    var r := y.runs[run];
    RunOf(y, run);
    ReturnedHasServer(r);
    EndpointsBacked(y.store, y.stops, run, r);
    ReturnedTaskCompleted(y, run, |r.tasks| - 1);
    StopRowEarned(y, r.tasks[|r.tasks| - 1].id);
  }

  /**
    A run that re-raised created one stop task, naming its start task. Once that
    row is completed the service is gone for good, if the controller's clock did
    not step back between creating the two.
   */
  lemma RaisedRunDrains(steps: seq<Step>, run: RunId)
    requires var y := Steps(START, steps);
      && run in y.runs && y.runs[run].pc.Raised? && y.runs[run].server.Some?
    ensures
      var y := Steps(START, steps);
      var r := y.runs[run];
      && |r.tasks| >= 2 && r.server.value in y.store.rows
      && r.tasks[|r.tasks| - 1].id in y.store.rows
    ensures
      var y := Steps(START, steps);
      var r := y.runs[run];
      var stop := r.tasks[|r.tasks| - 1].id;
      && y.store.rows[stop].work == ServiceStop(O.ServiceOf(r.flow), r.server.value)
      && y.store.rows[stop].agent == r.target
      && (y.store.rows[stop].status.Completed?
          && y.store.rows[r.server.value].createdAt < y.store.rows[stop].createdAt ==>
            NotActive(y.workers, r.target, O.ServiceOf(r.flow), r.server.value))
  {
    hide Steps, Inv, O.RunInv, RunStoreInv, NotActive;
    var y := Steps(START, steps);
    var r := y.runs[run];
    Reached(steps);
    RunOf(y, run);
    EndpointsBacked(y.store, y.stops, run, r);
    if y.store.rows[r.tasks[|r.tasks| - 1].id].status.Completed?
       && y.store.rows[r.server.value].createdAt < y.store.rows[r.tasks[|r.tasks| - 1].id].createdAt {
      CompletedStopInState(y, r.tasks[|r.tasks| - 1].id);
    }
  }

  /** An ended run has exactly one stop row for its start row, and one cleanup row iff it prepared the dataset. */
  lemma EndedRunRows(steps: seq<Step>, run: RunId, id: TaskId)
    requires var y := Steps(START, steps);
      run in y.runs && (y.runs[run].pc.Returned? || y.runs[run].pc.Raised?)
    requires var y := Steps(START, steps); id in y.store.rows && y.store.rows[id].run == run
    ensures
      var y := Steps(START, steps);
      var r, row, n := y.runs[run], y.store.rows[id], |y.runs[run].tasks|;
      && n >= 2
      && (row.work.ServiceStart? <==> id == r.tasks[0].id)
      && (row.work.ServiceStop? <==> id == r.tasks[n - 1].id)
      && (row.work.ServiceStop? ==> row.work.server == r.tasks[0].id && row.agent == r.target)
      && (row.work.ClientCleanup? <==> r.prepared && id == r.tasks[n - 2].id)
  {
    hide Steps, Inv, O.RunInv, RunStoreInv;
    var y := Steps(START, steps);
    var r := y.runs[run];
    Reached(steps);
    RunOf(y, run);
    RunRows(y, run);
    var i :| 0 <= i < |r.tasks| && r.tasks[i].id == id;
    EndedTaskWork(y.store, y.stops, run, r, i);
    EndedTaskWork(y.store, y.stops, run, r, 0);
    EndedTaskWork(y.store, y.stops, run, r, |r.tasks| - 1);
    if r.prepared {
      EndedTaskCount(r);
      EndedTaskWork(y.store, y.stops, run, r, |r.tasks| - 2);
    }
  }

  lemma EndedTaskCount(r: O.Run)
    requires O.RunInv(r) && (r.pc.Returned? || r.pc.Raised?)
    ensures r.prepared ==> |r.tasks| >= 3
  {
    O.EndedShape(r);
  }

  lemma EndedTaskWork(s: Store, stops: map<TaskId, bool>, run: RunId, r: O.Run, i: nat)
    requires O.RunInv(r) && RunStoreInv(s, stops, run, r) && (r.pc.Returned? || r.pc.Raised?)
    requires i < |r.tasks|
    ensures
      var n, t := |r.tasks|, r.tasks[i];
      && t.id in s.rows && n >= 2 && r.server == Some(r.tasks[0].id)
      && (s.rows[t.id].work.ServiceStart? <==> i == 0)
      && (s.rows[t.id].work.ServiceStop? <==> i == n - 1)
      && (s.rows[t.id].work.ServiceStop? ==> s.rows[t.id].work.server == r.tasks[0].id && s.rows[t.id].agent == r.target)
      && (s.rows[t.id].work.ClientCleanup? <==> r.prepared && i == n - 2)
  {
    hide O.RunInv;
    EndedStages(r, i);
    assert TaskBacked(s, run, r, i);
  }

  /** Which of an ended run's tasks start, stop and clean. */
  lemma EndedStages(r: O.Run, i: nat)
    requires O.RunInv(r) && (r.pc.Returned? || r.pc.Raised?) && i < |r.tasks|
    ensures var n, stage := |r.tasks|, r.tasks[i].stage;
      && n >= 2 && r.server == Some(r.tasks[0].id)
      && (stage.StStart? <==> i == 0)
      && (stage.StStop? <==> i == n - 1)
      && (stage.StClean? <==> r.prepared && i == n - 2)
  {
    O.EndedShape(r);
    hide O.PlanFacts, O.Position, O.OnPlan, O.Count;
  }

  /** After a restart no row is live, no secret is held, and every run that had not ended is lost. */
  lemma RestartEndsEverything(steps: seq<Step>)
    ensures var y, y' := Steps(START, steps), Next(Steps(START, steps), Restart);
      && (forall id :: id in y'.store.rows ==> y'.store.rows[id].status in {Completed, Failed, Cancelled})
      && (forall id :: Delivered(y'.store, id) == None)
      && y'.runs.Keys == y.runs.Keys && y'.workers == y.workers
      && forall run :: run in y'.runs ==>
           y'.runs[run].pc == if y.runs[run].pc.Returned? || y.runs[run].pc.Raised? then y.runs[run].pc else O.Lost
  {
    hide Steps;
  }

  /** A run that has returned, raised or been lost is never driven again. */
  lemma {:induction false} FinishedRunsRest(y: System, steps: seq<Step>, run: RunId)
    requires run in y.runs && (y.runs[run].pc.Returned? || y.runs[run].pc.Raised? || y.runs[run].pc.Lost?)
    ensures run in Steps(y, steps).runs && Steps(y, steps).runs[run] == y.runs[run]
    decreases |steps|
  {
    hide Next;
    if steps != [] {
      FinishedRunRests(y, steps[0], run);
      FinishedRunsRest(Next(y, steps[0]), steps[1..], run);
    }
  }

  lemma FinishedRunRests(y: System, step: Step, run: RunId)
    requires run in y.runs && (y.runs[run].pc.Returned? || y.runs[run].pc.Raised? || y.runs[run].pc.Lost?)
    ensures run in Next(y, step).runs && Next(y, step).runs[run] == y.runs[run]
  {
    hide Apply, OldestQueued, AfterWork, StopsAfter, BoundedSecret, Recover, CancelQueued, Create, Claim, Finish, Progress,
         Abort, Tidied, TaskFor, Observable;
  }

  // ---- Why the drain needs the clock -------------------------------------------

  const LATE: NewTask := NewTask(10, 7, 1, ServiceStart(Web), None, 100)
  const EARLY: NewTask := NewTask(11, 7, 1, ServiceStop(Web, 10), None, 50)

  /** The stop task is created after the start task, but its timestamp is older. */
  const STEP_BACK: seq<Step> := [
    Join(1, 0), ForeignCreate(LATE), ForeignCreate(EARLY),
    ClaimTask(1, 11, true, 0), Execute(1, 0, Success(None, 0)), Post(1, 11, true, true, 0),
    ClaimTask(1, 10, true, 0), Execute(1, 0, Success(None, 60))]

  /**
    Without the clock hypothesis the drain property is false: if the wall clock
    steps back between the two inserts, the stop task is claimed first, completes,
    and the service started afterwards stays active.
   */
  lemma ClockStepBackLeavesService()
    ensures
      var y := Steps(START, STEP_BACK);
      && CompletedRow(y.store, 11) && y.store.rows[11].work == ServiceStop(Web, 10)
      && 10 in y.store.rows && y.store.rows[10].order < y.store.rows[11].order
      && 1 in y.workers && 10 in y.workers[1].services.web
  {
    hide Next, Steps;
    var claimed := NewRow(EARLY, 1).(status := Running, claimed := true);
    var done := claimed.(status := Completed);
    var started := NewRow(LATE, 0).(status := Running, claimed := true);
    var idle := Worker(Idle, map[], NO_SERVICES, 0);
    var y3 := Scene(NewRow(LATE, 0), NewRow(EARLY, 1), idle, [], map[]);
    var y4 := Scene(NewRow(LATE, 0), claimed, idle.(phase := Executing(11, None)), [], map[]);
    var y5 := Scene(NewRow(LATE, 0), claimed,
                    idle.(pending := map[11 := Completion(Completed, None, None)]), [11], map[11 := false]);
    var y6 := Scene(NewRow(LATE, 0), done, idle, [11], map[11 := false]);
    var y7 := Scene(started, done, idle.(phase := Executing(10, None)), [11], map[11 := false]);
    var y8 := Executed(y7, 1, 0, Success(None, 60));
    SceneOpens();
    SceneClaim(NewRow(LATE, 0), NewRow(EARLY, 1), 11, [], map[]);
    SceneStop();
    ScenePost();
    SceneClaim(NewRow(LATE, 0), done, 10, [11], map[11 := false]);
    assert y8 == Next(y7, STEP_BACK[7]) && y8.workers[1].services.web == map[10 := 60] by { SceneStart(done); }
    StepsUnroll(Next(START, STEP_BACK[0]), Next(Next(START, STEP_BACK[0]), STEP_BACK[1]), y3, y4, y5, y6, y7, y8);
  }

  function Scene(late: Row, early: Row, w: Worker, executed: seq<TaskId>, stops: map<TaskId, bool>): System {
    System(Store(map[10 := late, 11 := early], map[], map[]), map[1 := w], map[], executed, stops)
  }

  lemma SceneOpens()
    ensures Next(Next(Next(START, STEP_BACK[0]), STEP_BACK[1]), STEP_BACK[2])
         == Scene(NewRow(LATE, 0), NewRow(EARLY, 1), Worker(Idle, map[], NO_SERVICES, 0), [], map[])
  {
    var w := Worker(Idle, map[], NO_SERVICES, 0);
    var y1 := Next(START, STEP_BACK[0]);
    assert y1 == START.(workers := map[1 := w]);
    var y2 := Next(y1, STEP_BACK[1]);
    assert y2.store == Store(map[10 := NewRow(LATE, 0)], map[], map[]);
    var y3 := Next(y2, STEP_BACK[2]);
    assert |y2.store.rows| == 1;
    assert y3.store == Insert(y2.store, EARLY);
    assert y3.store.rows == map[10 := NewRow(LATE, 0), 11 := NewRow(EARLY, 1)];
  }

  lemma SceneClaim(late: Row, early: Row, id: TaskId, executed: seq<TaskId>, stops: map<TaskId, bool>)
    requires late == NewRow(LATE, 0) && early.agent == 1 && early.createdAt == 50
    requires if id == 11 then early == NewRow(EARLY, 1) else id == 10 && early.status.Completed?
    ensures
      var idle := Worker(Idle, map[], NO_SERVICES, 0);
      var running := (if id == 10 then late else early).(status := Running, claimed := true);
      Next(Scene(late, early, idle, executed, stops), ClaimTask(1, id, true, 0))
      == Scene(if id == 10 then running else late, if id == 11 then running else early,
               idle.(phase := Executing(id, None)), executed, stops)
  {
    var y := Scene(late, early, Worker(Idle, map[], NO_SERVICES, 0), executed, stops);
    assert OldestQueued(y.store, 1, id);
    var row := y.store.rows[id].(status := Running, claimed := true);
    assert Claim(y.store, 1, id).rows == if id == 10 then map[10 := row, 11 := early] else map[10 := late, 11 := row];
  }

  lemma SceneStop()
    ensures
      var claimed := NewRow(EARLY, 1).(status := Running, claimed := true);
      var idle := Worker(Idle, map[], NO_SERVICES, 0);
      Next(Scene(NewRow(LATE, 0), claimed, idle.(phase := Executing(11, None)), [], map[]),
           Execute(1, 0, Success(None, 0)))
      == Scene(NewRow(LATE, 0), claimed,
               idle.(pending := map[11 := Completion(Completed, None, None)]), [11], map[11 := false])
  {
  }

  lemma ScenePost()
    ensures
      var claimed := NewRow(EARLY, 1).(status := Running, claimed := true);
      var idle := Worker(Idle, map[], NO_SERVICES, 0);
      Next(Scene(NewRow(LATE, 0), claimed,
                 idle.(pending := map[11 := Completion(Completed, None, None)]), [11], map[11 := false]),
           Post(1, 11, true, true, 0))
      == Scene(NewRow(LATE, 0), claimed.(status := Completed), idle, [11], map[11 := false])
  {
    var claimed := NewRow(EARLY, 1).(status := Running, claimed := true);
    var s := Store(map[10 := NewRow(LATE, 0), 11 := claimed], map[], map[]);
    assert Finish(s, 11, 1, Completed, None, None).rows
        == map[10 := NewRow(LATE, 0), 11 := claimed.(status := Completed)];
    assert Finish(s, 11, 1, Completed, None, None).secrets == map[];
  }

  lemma SceneStart(done: Row)
    ensures
      var started := NewRow(LATE, 0).(status := Running, claimed := true);
      var y7 := Scene(started, done, Worker(Executing(10, None), map[], NO_SERVICES, 0), [11], map[11 := false]);
      && Working(y7, 1)
      && Next(y7, STEP_BACK[7]) == Executed(y7, 1, 0, Success(None, 60))
      && Executed(y7, 1, 0, Success(None, 60)).workers[1].services.web == map[10 := 60]
      && Executed(y7, 1, 0, Success(None, 60)).store == y7.store
  {
  }

  lemma StepsUnroll(y1: System, y2: System, y3: System, y4: System, y5: System, y6: System, y7: System, y8: System)
    requires y1 == Next(START, STEP_BACK[0]) && y2 == Next(y1, STEP_BACK[1]) && y3 == Next(y2, STEP_BACK[2])
    requires y4 == Next(y3, STEP_BACK[3]) && y5 == Next(y4, STEP_BACK[4]) && y6 == Next(y5, STEP_BACK[5])
    requires y7 == Next(y6, STEP_BACK[6]) && y8 == Next(y7, STEP_BACK[7])
    ensures Steps(START, STEP_BACK) == y8
  {
    hide Next;
    var p := STEP_BACK;
    assert Steps(y8, p[8..]) == y8;
    assert p[7..][1..] == p[8..] && p[6..][1..] == p[7..] && p[5..][1..] == p[6..] && p[4..][1..] == p[5..];
    assert p[3..][1..] == p[4..] && p[2..][1..] == p[3..] && p[1..][1..] == p[2..];
    assert Steps(y7, p[7..]) == y8;
    assert Steps(y6, p[6..]) == y8;
    assert Steps(y5, p[5..]) == y8;
    assert Steps(y4, p[4..]) == y8;
    assert Steps(y3, p[3..]) == y8;
    assert Steps(y2, p[2..]) == y8;
    assert Steps(y1, p[1..]) == y8;
  }
}
