/** Every step of the protocol machine keeps the invariant. */
module ProtocolProof {
  import opened Wrappers
  import opened TaskStore
  import opened WorkerState
  import opened Protocol
  import O = Orchestrator

  // ---- What a change of the store alone keeps ------------------------------

  lemma HeldStable(s: Store, s': Store, agent: AgentId, id: TaskId)
    requires StoreEvolves(s, s') && Held(s, agent, id)
    ensures Held(s', agent, id) && s'.rows[id].work == s.rows[id].work
  {
    assert Evolves(s.rows[id], s'.rows[id]);
  }

  lemma WorkerStable(
    s: Store, s': Store, executed: seq<TaskId>, stops: map<TaskId, bool>, agent: AgentId, w: Worker)
    requires StoreEvolves(s, s') && WorkerInv(s, executed, stops, agent, w)
    ensures WorkerInv(s', executed, stops, agent, w)
  {
    if w.phase.Executing? { HeldStable(s, s', agent, w.phase.task); }
    forall id | id in w.pending ensures PendingOk(s', executed, stops, agent, w, id) {
      assert PendingOk(s, executed, stops, agent, w, id);
      HeldStable(s, s', agent, id);
    }
    forall kind: Service, id | id in w.services.Of(kind) ensures ServiceOk(s', executed, agent, kind, id) {
      assert ServiceOk(s, executed, agent, kind, id);
      HeldStable(s, s', agent, id);
    }
  }

  lemma StopStable(y: System, s': Store, stop: TaskId)
    requires StoreInv(y.store) && StoreEvolves(y.store, s') && stop in y.stops && StopInv(y, stop)
    requires forall id :: id in s'.rows && id !in y.store.rows ==> s'.rows[id].order >= |y.store.rows|
    ensures StopInv(y.(store := s'), stop)
  {
    var row := y.store.rows[stop];
    assert RowOk(row, |y.store.rows|) && Evolves(row, s'.rows[stop]);
    var server := row.work.server;
    if server in y.store.rows { assert Evolves(y.store.rows[server], s'.rows[server]); }
  }

  lemma StoreChange(y: System, s': Store)
    requires CoreInv(y) && StoreInv(s') && QueueDiscipline(s') && StoreEvolves(y.store, s')
    requires forall id :: id in s'.rows ==> Earned(y.executed, y.stops, id, s'.rows[id])
    requires forall id :: id in s'.rows && id !in y.store.rows ==> s'.rows[id].order >= |y.store.rows|
    ensures CoreInv(y.(store := s'))
  {
    forall agent | agent in y.workers ensures WorkerInv(s', y.executed, y.stops, agent, y.workers[agent]) {
      WorkerStable(y.store, s', y.executed, y.stops, agent, y.workers[agent]);
    }
    forall id | id in y.executed ensures id in s'.rows && s'.rows[id].claimed {
      assert Evolves(y.store.rows[id], s'.rows[id]);
    }
    forall stop | stop in y.stops ensures StopInv(y.(store := s'), stop) {
      StopStable(y, s', stop);
    }
  }

  lemma RunStable(s: Store, s': Store, stops: map<TaskId, bool>, run: RunId, r: O.Run)
    requires StoreEvolves(s, s') && RunStoreInv(s, stops, run, r)
    requires forall id :: id in s'.rows && id !in s.rows ==> s'.rows[id].run != run
    ensures RunStoreInv(s', stops, run, r)
  {
    forall i | 0 <= i < |r.tasks| ensures TaskBacked(s', run, r, i) {
      assert TaskBacked(s, run, r, i) && TaskBacked(s, run, r, 0);
      assert Evolves(s.rows[r.tasks[i].id], s'.rows[r.tasks[i].id]);
      assert Evolves(s.rows[r.tasks[0].id], s'.rows[r.tasks[0].id]);
    }
    if O.Normal(r.pc) {
      forall i | 0 <= i < r.steps && i < |r.tasks| ensures StepBacked(s', r.tasks[i]) {
        assert StepBacked(s, r.tasks[i]);
        assert Evolves(s.rows[r.tasks[i].id], s'.rows[r.tasks[i].id]);
      }
    }
    forall id | id in s'.rows && s'.rows[id].run == run ensures id in TaskIds(r) {
      assert Evolves(s.rows[id], s'.rows[id]);
    }
  }

  lemma RunsStable(y: System, s': Store)
    requires RunsInv(y) && StoreEvolves(y.store, s')
    requires forall id :: id in s'.rows && id !in y.store.rows ==> s'.rows[id].run !in y.runs
    ensures RunsInv(y.(store := s'))
  {
    forall run | run in y.runs ensures RunStoreInv(s', y.stops, run, y.runs[run]) {
      RunStable(y.store, s', y.stops, run, y.runs[run]);
    }
  }

  /** Only `finish_agent_task` can make a row completed or failed. */
  lemma OnlyFinishCompletes(s: Store, op: Op, id: TaskId)
    requires id in Apply(s, op).rows && !op.OpFinish?
    ensures Apply(s, op).rows[id].status.Completed? || Apply(s, op).rows[id].status.Failed? ==>
              id in s.rows && s.rows[id].status == Apply(s, op).rows[id].status
                           && s.rows[id].work == Apply(s, op).rows[id].work
  {
  }

  lemma StoreStep(y: System, op: Op)
    requires CoreInv(y) && !op.OpFinish?
    ensures CoreInv(y.(store := Apply(y.store, op)))
  {
    var s' := Apply(y.store, op);
    ApplyFacts(y.store, op);
    DisciplineKept(y.store, op);
    forall id | id in s'.rows ensures Earned(y.executed, y.stops, id, s'.rows[id]) {
      OnlyFinishCompletes(y.store, op, id);
      if id in y.store.rows { assert Earned(y.executed, y.stops, id, y.store.rows[id]); }
    }
    forall id | id in s'.rows && id !in y.store.rows ensures s'.rows[id].order >= |y.store.rows| {
      NewRows(y.store, op, id);
    }
    StoreChange(y, s');
  }

  lemma ControllerStep(y: System, op: Op)
    requires Inv(y) && !op.OpFinish? && (op.OpCreate? ==> op.task.run !in y.runs)
    ensures Inv(y.(store := Apply(y.store, op)))
  {
    hide CoreInv, RunsInv;
    StoreOf(y);
    StoreStep(y, op);
    ApplyFacts(y.store, op);
    RunsStable(y, Apply(y.store, op));
  }

  // ---- What a change of one worker keeps -----------------------------------

  lemma WorkerOf(y: System, agent: AgentId)
    requires Inv(y) && agent in y.workers
    ensures WorkerInv(y.store, y.executed, y.stops, agent, y.workers[agent])
  {
  }

  lemma StoreOf(y: System)
    requires Inv(y)
    ensures StoreInv(y.store) && QueueDiscipline(y.store)
  {
  }

  lemma StopOf(y: System, stop: TaskId)
    requires Inv(y) && stop in y.stops
    ensures StopInv(y, stop)
  {
  }

  lemma WorkerChangeCore(y: System, agent: AgentId, w: Worker)
    requires CoreInv(y) && WorkerInv(y.store, y.executed, y.stops, agent, w)
    requires forall kind: Service, id :: id in w.services.Of(kind) ==>
               agent in y.workers && id in y.workers[agent].services.Of(kind)
    requires w.phase.Executing? ==> forall stop :: stop in y.stops && y.stops[stop] ==>
               y.store.rows[stop].work.server != w.phase.task
    ensures CoreInv(y.(workers := y.workers[agent := w]))
  {
    hide WorkerInv, StoreInv, QueueDiscipline;
    var y' := y.(workers := y.workers[agent := w]);
    forall stop | stop in y'.stops ensures StopInv(y', stop) {
      assert StopInv(y, stop);
    }
  }

  lemma WorkerChange(y: System, agent: AgentId, w: Worker)
    requires Inv(y) && WorkerInv(y.store, y.executed, y.stops, agent, w)
    requires forall kind: Service, id :: id in w.services.Of(kind) ==>
               agent in y.workers && id in y.workers[agent].services.Of(kind)
    requires w.phase.Executing? ==> forall stop :: stop in y.stops && y.stops[stop] ==>
               stop in y.store.rows && y.store.rows[stop].work.ServiceStop? && y.store.rows[stop].work.server != w.phase.task
    ensures Inv(y.(workers := y.workers[agent := w]))
  {
    hide WorkerInv, StoreInv, QueueDiscipline, StopInv, Earned, RunStoreInv, O.RunInv;
    WorkerChangeCore(y, agent, w);
  }

  lemma JoinStep(y: System, agent: AgentId, now: int)
    requires Inv(y)
    ensures Inv(Next(y, Join(agent, now)))
  {
    hide Inv;
    if agent !in y.workers { WorkerChange(y, agent, Worker(Idle, map[], NO_SERVICES, now)); }
  }

  lemma HeartbeatStep(y: System, agent: AgentId, now: int)
    requires Inv(y)
    ensures Inv(Next(y, Heartbeat(agent, now)))
  {
    hide Inv;
    if Ready(y, agent) {
      WorkerOf(y, agent);
      WorkerChange(y, agent, y.workers[agent].(lastContact := now));
    }
  }

  lemma HaltStep(y: System, agent: AgentId)
    requires Inv(y)
    ensures Inv(Next(y, Halt(agent)))
  {
    hide Inv;
    if agent in y.workers {
      WorkerOf(y, agent);
      WorkerChange(y, agent, y.workers[agent].(phase := Halted, pending := map[], services := NO_SERVICES));
    }
  }

  lemma TidyStep(y: System, agent: AgentId, now: int, stopped: set<TaskId>)
    requires Inv(y)
    ensures Inv(Next(y, Tidy(agent, now, stopped)))
  {
    hide Inv;
    if Ready(y, agent) {
      var w := y.workers[agent];
      var lost := ContactExpired(w.lastContact, now);
      WorkerOf(y, agent);
      TidiedWorker(y.store, y.executed, y.stops, agent, w, now, lost, stopped);
      WorkerChange(y, agent, w.(services := Tidied(w.services, now, lost, stopped)));
    }
  }

  lemma TidiedWorker(
    s: Store, executed: seq<TaskId>, stops: map<TaskId, bool>, agent: AgentId, w: Worker,
    now: int, lost: bool, stopped: set<TaskId>)
    requires WorkerInv(s, executed, stops, agent, w)
    ensures var w' := w.(services := Tidied(w.services, now, lost, stopped));
      && WorkerInv(s, executed, stops, agent, w')
      && forall kind: Service, id :: id in w'.services.Of(kind) ==> id in w.services.Of(kind)
  {
    hide Held, ServiceOk;
    var w' := w.(services := Tidied(w.services, now, lost, stopped));
    TotalTidied(w.services, now, lost, stopped);
    forall kind: Service, id | id in w'.services.Of(kind)
      ensures id in w.services.Of(kind) && ServiceOk(s, executed, agent, kind, id)
    {
      assert w'.services.Of(kind) == Surviving(w.services.Of(kind), now, lost, stopped);
    }
    forall id | id in w'.pending ensures PendingOk(s, executed, stops, agent, w', id) {
      assert PendingOk(s, executed, stops, agent, w, id);
    }
  }

  lemma ClaimStep(y: System, agent: AgentId, id: TaskId, delivered: bool, now: int)
    requires Inv(y)
    ensures Inv(Next(y, ClaimTask(agent, id, delivered, now)))
  {
    hide Inv, OldestQueued;
    if Ready(y, agent) && y.workers[agent].pending == map[] && OldestQueued(y.store, agent, id) {
      ControllerStep(y, OpClaim(agent, id));
      if delivered { DeliveryStep(y, agent, id, now); }
    }
  }

  lemma DeliveryStep(y: System, agent: AgentId, id: TaskId, now: int)
    requires Inv(y) && Ready(y, agent) && y.workers[agent].pending == map[] && OldestQueued(y.store, agent, id)
    requires Inv(y.(store := Claim(y.store, agent, id)))
    ensures Inv(Next(y, ClaimTask(agent, id, true, now)))
  {
    hide Inv;
    var y' := y.(store := Claim(y.store, agent, id));
    var w := y.workers[agent];
    var w' := w.(phase := Executing(id, Delivered(y.store, id)), lastContact := now);
    DeliveredWorker(y, agent, id, now);
    forall stop | stop in y'.stops && y'.stops[stop]
      ensures stop in y'.store.rows && y'.store.rows[stop].work.ServiceStop? && y'.store.rows[stop].work.server != id
    {
      StopOf(y, stop);
    }
    WorkerChange(y', agent, w');
  }

  lemma DeliveredWorker(y: System, agent: AgentId, id: TaskId, now: int)
    requires Inv(y) && Ready(y, agent) && y.workers[agent].pending == map[] && OldestQueued(y.store, agent, id)
    requires Inv(y.(store := Claim(y.store, agent, id)))
    ensures
      var w := y.workers[agent].(phase := Executing(id, Delivered(y.store, id)), lastContact := now);
      WorkerInv(Claim(y.store, agent, id), y.executed, y.stops, agent, w)
  {
    var w := y.workers[agent];
    var s' := Claim(y.store, agent, id);
    DeliveredExecutes(y, agent, id, now);
    hide Inv, ExecutingOk, ServiceOk, PendingOk, OldestQueued, Claim, Delivered;
    WorkerOf(y.(store := s'), agent);
    assert WorkerInv(s', y.executed, y.stops, agent, w);
  }

  lemma DeliveredExecutes(y: System, agent: AgentId, id: TaskId, now: int)
    requires Inv(y) && Ready(y, agent) && y.workers[agent].pending == map[] && OldestQueued(y.store, agent, id)
    ensures ExecutingOk(Claim(y.store, agent, id), y.executed, agent,
                        y.workers[agent].(phase := Executing(id, Delivered(y.store, id)), lastContact := now))
  {
    FreshlyClaimed(y, agent, id);
    hide CoreInv, RunsInv, Claim, Delivered, OldestQueued, Held;
  }

  lemma FreshlyClaimed(y: System, agent: AgentId, id: TaskId)
    requires CoreInv(y) && OldestQueued(y.store, agent, id)
    ensures Held(Claim(y.store, agent, id), agent, id) && id !in y.executed
    ensures Delivered(y.store, id) == IssuedFor(Claim(y.store, agent, id), id)
  {
    hide WorkersInv, EarnedInv, StopsInv, QueueDiscipline;
    assert RowOk(y.store.rows[id], |y.store.rows|) && LiveRow(y.store, id);
  }

  // ---- Executing a task ------------------------------------------------------

  lemma OthersUnmoved(y: System, agent: AgentId, id: TaskId, stops': map<TaskId, bool>, other: AgentId)
    requires CoreInv(y) && Working(y, agent) && y.workers[agent].phase.task == id
    requires other in y.workers && other != agent && y.stops.Keys <= stops'.Keys
    ensures WorkerInv(y.store, y.executed + [id], stops', other, y.workers[other])
  {
    hide StoreInv, QueueDiscipline, ExecutedInv, EarnedInv, StopsInv;
    var w := y.workers[other];
    assert WorkerInv(y.store, y.executed, y.stops, other, w);
    assert Held(y.store, agent, id) by { assert WorkerInv(y.store, y.executed, y.stops, agent, y.workers[agent]); }
    forall p | p in w.pending ensures PendingOk(y.store, y.executed + [id], stops', other, w, p) {
      assert PendingOk(y.store, y.executed, y.stops, other, w, p);
    }
    forall kind: Service, k | k in w.services.Of(kind)
      ensures ServiceOk(y.store, y.executed + [id], other, kind, k)
    {
      assert ServiceOk(y.store, y.executed, other, kind, k);
    }
  }

  lemma ExecutorHolds(y: System, agent: AgentId)
    requires CoreInv(y) && Working(y, agent)
    ensures var w := y.workers[agent];
      && WorkerInv(y.store, y.executed, y.stops, agent, w)
      && w.pending == map[] && Held(y.store, agent, w.phase.task) && w.phase.task !in y.executed
  {
    hide StoreInv, QueueDiscipline, ExecutedInv, EarnedInv, StopsInv;
    assert ExecutingOk(y.store, y.executed, agent, y.workers[agent]);
  }

  lemma ServicesOkAfter(
    s: Store, executed: seq<TaskId>, stops: map<TaskId, bool>, agent: AgentId, w: Worker,
    now: int, out: Outcome, kind: Service, k: TaskId)
    requires WorkerInv(s, executed, stops, agent, w) && w.phase.Executing? && Held(s, agent, w.phase.task)
    requires k in ServicesAfter(w.services, w.phase.task, s.rows[w.phase.task].work, now, out).Of(kind)
    ensures ServiceOk(s, executed + [w.phase.task], agent, kind, k)
  {
    hide ServicesAfter, PendingOk, ExecutingOk;
    var id := w.phase.task;
    ServiceOrigin(w.services, id, s.rows[id].work, now, out, kind, k);
    if k in w.services.Of(kind) {
      assert ServiceOk(s, executed, agent, kind, k);
    } else {
      assert (executed + [id])[|executed|] == id;
    }
  }

  lemma PendingAfter(
    s: Store, executed: seq<TaskId>, stops: map<TaskId, bool>, stops': map<TaskId, bool>, agent: AgentId, w: Worker,
    now: int, out: Outcome, p: TaskId)
    requires w.phase.Executing? && w.pending == map[] && Held(s, agent, w.phase.task)
    requires s.rows[w.phase.task].work.ServiceStop? && out.Success? ==> w.phase.task in stops'
    requires p in AfterWork(w, s.rows[w.phase.task].work, now, out).pending
    ensures p == w.phase.task
    ensures PendingOk(s, executed + [w.phase.task], stops', agent, AfterWork(w, s.rows[w.phase.task].work, now, out), p)
  {
    hide ServicesAfter;
    assert (executed + [w.phase.task])[|executed|] == w.phase.task;
  }

  lemma ExecutorAfter(
    s: Store, executed: seq<TaskId>, stops: map<TaskId, bool>, stops': map<TaskId, bool>, agent: AgentId, w: Worker,
    now: int, out: Outcome)
    requires WorkerInv(s, executed, stops, agent, w) && w.phase.Executing? && Held(s, agent, w.phase.task)
    requires w.pending == map[] && w.phase.task in s.rows
    requires s.rows[w.phase.task].work.ServiceStop? && out.Success? ==> w.phase.task in stops'
    ensures WorkerInv(s, executed + [w.phase.task], stops', agent, AfterWork(w, s.rows[w.phase.task].work, now, out))
  {
    hide ServicesAfter, Held, PendingOk, ServiceOk;
    var id := w.phase.task;
    var w' := AfterWork(w, s.rows[id].work, now, out);
    TotalAfter(w.services, id, s.rows[id].work, now, out);
    forall kind: Service, k | k in w'.services.Of(kind) ensures ServiceOk(s, executed + [id], agent, kind, k) {
      ServicesOkAfter(s, executed, stops, agent, w, now, out, kind, k);
    }
    forall p | p in w'.pending ensures PendingOk(s, executed + [id], stops', agent, w', p) {
      PendingAfter(s, executed, stops, stops', agent, w, now, out, p);
    }
  }

  lemma StillNotActive(y: System, agent: AgentId, now: int, out: Outcome, where: AgentId, kind: Service, server: TaskId)
    requires Working(y, agent) && NotActive(y.workers, where, kind, server)
    ensures NotActive(Executed(y, agent, now, out).workers, where, kind, server)
  {
    hide ServicesAfter, CompletionOf, StopsAfter;
    var w := y.workers[agent];
    if where == agent && server in AfterWork(w, y.store.rows[w.phase.task].work, now, out).services.Of(kind) {
      ServiceOrigin(w.services, w.phase.task, y.store.rows[w.phase.task].work, now, out, kind, server);
    }
  }

  lemma OldStopAfterExecute(y: System, agent: AgentId, now: int, out: Outcome, stop: TaskId)
    requires Working(y, agent) && stop in y.stops && StopInv(y, stop)
    requires stop in StopsAfter(y, y.workers[agent].phase.task, out)
    requires StopsAfter(y, y.workers[agent].phase.task, out)[stop] == y.stops[stop]
    ensures StopInv(Executed(y, agent, now, out), stop)
  {
    hide NotActive, Ahead, AfterWork, StopsAfter, StartSettled;
    var row := y.store.rows[stop];
    if NotActive(y.workers, row.agent, row.work.service, row.work.server) {
      StillNotActive(y, agent, now, out, row.agent, row.work.service, row.work.server);
    }
  }

  lemma NewStopAfterExecute(y: System, agent: AgentId, now: int, out: Outcome)
    requires QueueDiscipline(y.store) && Working(y, agent) && Held(y.store, agent, y.workers[agent].phase.task)
    requires y.store.rows[y.workers[agent].phase.task].work.ServiceStop? && out.Success?
    ensures StopInv(Executed(y, agent, now, out), y.workers[agent].phase.task)
  {
    hide ServicesAfter, CompletionOf;
    var w := y.workers[agent];
    var work := y.store.rows[w.phase.task].work;
    StopRemoves(w.services, w.phase.task, work.service, work.server, now, out);
  }

  lemma ExecuteWorkers(y: System, agent: AgentId, now: int, out: Outcome)
    requires CoreInv(y) && Working(y, agent)
    ensures WorkersInv(Executed(y, agent, now, out))
  {
    hide CoreInv, WorkerInv, AfterWork, Held;
    var y' := Executed(y, agent, now, out);
    var id := y.workers[agent].phase.task;
    ExecutorHolds(y, agent);
    forall other | other in y'.workers
      ensures WorkerInv(y'.store, y'.executed, y'.stops, other, y'.workers[other])
    {
      if other == agent {
        ExecutorAfter(y.store, y.executed, y.stops, y'.stops, agent, y.workers[agent], now, out);
      } else {
        OthersUnmoved(y, agent, id, y'.stops, other);
      }
    }
  }

  lemma ExecuteStops(y: System, agent: AgentId, now: int, out: Outcome)
    requires CoreInv(y) && Working(y, agent)
    ensures StopsInv(Executed(y, agent, now, out))
  {
    hide WorkersInv, StoreInv, ExecutedInv, EarnedInv, QueueDiscipline, AfterWork, StopInv, Held;
    ExecutorHolds(y, agent);
    var y' := Executed(y, agent, now, out);
    var id := y.workers[agent].phase.task;
    forall stop | stop in y'.stops ensures StopInv(y', stop) {
      if stop == id && y.store.rows[id].work.ServiceStop? && out.Success? {
        NewStopAfterExecute(y, agent, now, out);
      } else {
        OldStopAfterExecute(y, agent, now, out, stop);
      }
    }
  }

  lemma ExecuteHistory(y: System, agent: AgentId, now: int, out: Outcome)
    requires CoreInv(y) && Working(y, agent)
    ensures ExecutedInv(Executed(y, agent, now, out)) && EarnedInv(Executed(y, agent, now, out))
  {
    hide WorkersInv, StoreInv, StopsInv, QueueDiscipline, AfterWork, StartSettled;
    ExecutorHolds(y, agent);
    var y' := Executed(y, agent, now, out);
    forall k | k in y'.store.rows ensures Earned(y'.executed, y'.stops, k, y'.store.rows[k]) {
      assert Earned(y.executed, y.stops, k, y.store.rows[k]);
    }
  }

  lemma ExecuteCore(y: System, agent: AgentId, now: int, out: Outcome)
    requires CoreInv(y) && Working(y, agent)
    ensures CoreInv(Executed(y, agent, now, out))
  {
    hide WorkersInv, StoreInv, StopsInv, QueueDiscipline, ExecutedInv, EarnedInv, AfterWork, StopsAfter;
    ExecuteWorkers(y, agent, now, out);
    ExecuteStops(y, agent, now, out);
    ExecuteHistory(y, agent, now, out);
  }

  /** On the undisturbed path the stop task is created after the start task completed. */
  lemma PlannedStopIsClean(s: Store, stops: map<TaskId, bool>, run: RunId, r: O.Run)
    requires O.RunInv(r) && RunStoreInv(s, stops, run, r)
    requires O.Normal(r.pc) && O.StopMade(r.tasks)
    ensures var stop := r.tasks[|r.tasks| - 1].id; stop in s.rows && StartSettled(s, s.rows[stop])
  {
    assert TaskBacked(s, run, r, |r.tasks| - 1);
    assert r.steps >= 1;
    assert StepBacked(s, r.tasks[0]);
  }

  lemma ExecuteStep(y: System, agent: AgentId, now: int, out: Outcome)
    requires Inv(y)
    ensures Inv(Next(y, Execute(agent, now, out)))
  {
    hide CoreInv, O.RunInv, RunStoreInv, AfterWork;
    if Working(y, agent) {
      ExecuteCore(y, agent, now, out);
      var y' := Executed(y, agent, now, out);
      forall run | run in y'.runs ensures RunStoreInv(y'.store, y'.stops, run, y'.runs[run]) {
        StopsNoted(y.store, y.stops, y'.stops, run, y.runs[run], y.workers[agent].phase.task);
      }
    }
  }

  lemma StopsNoted(
    s: Store, stops: map<TaskId, bool>, stops': map<TaskId, bool>, run: RunId, r: O.Run, id: TaskId)
    requires (!r.pc.Lost? ==> O.RunInv(r)) && RunStoreInv(s, stops, run, r)
    requires stops' == stops || (id in s.rows && stops' == stops[id := StartSettled(s, s.rows[id])])
    ensures RunStoreInv(s, stops', run, r)
  {
    hide O.RunInv, TaskBacked, StepBacked, StartSettled, BoundedSecret;
    if O.Normal(r.pc) && O.StopMade(r.tasks) { PlannedStopIsClean(s, stops, run, r); }
  }

  // ---- Posting a completion --------------------------------------------------

  lemma PostStep(y: System, agent: AgentId, id: TaskId, arrives: bool, acknowledged: bool, now: int)
    requires Inv(y)
    ensures Inv(Next(y, Post(agent, id, arrives, acknowledged, now)))
  {
    hide Inv;
    if Ready(y, agent) && id in y.workers[agent].pending && arrives {
      var done := y.workers[agent].pending[id];
      var s' := Finish(y.store, id, agent, done.status, done.result, done.error);
      FinishStep(y, agent, id);
      AcknowledgeStep(y.(store := s'), agent, id, now);
    }
  }

  lemma FinishEarned(s: Store, executed: seq<TaskId>, stops: map<TaskId, bool>, agent: AgentId, w: Worker, id: TaskId, k: TaskId)
    requires id in w.pending && PendingOk(s, executed, stops, agent, w, id)
    requires k in s.rows && Earned(executed, stops, k, s.rows[k])
    ensures var done := w.pending[id];
            var s' := Finish(s, id, agent, done.status, done.result, done.error);
            k in s'.rows && Earned(executed, stops, k, s'.rows[k])
  {
  }

  lemma FinishStep(y: System, agent: AgentId, id: TaskId)
    requires Inv(y) && agent in y.workers && id in y.workers[agent].pending
    ensures var done := y.workers[agent].pending[id];
            Inv(y.(store := Finish(y.store, id, agent, done.status, done.result, done.error)))
  {
    hide Finish, RunsInv, WorkersInv, ExecutedInv, StopsInv, StoreInv, QueueDiscipline, StoreEvolves, Earned, PendingOk;
    var w := y.workers[agent];
    var done := w.pending[id];
    var op := OpFinish(id, agent, done.status, done.result, done.error);
    var s' := Finish(y.store, id, agent, done.status, done.result, done.error);
    PendingOf(y, agent, id);
    assert s' == Apply(y.store, op);
    ApplyFacts(y.store, op);
    DisciplineKept(y.store, op);
    FinishKeepsKeys(y.store, id, agent, done.status, done.result, done.error);
    forall k | k in s'.rows ensures Earned(y.executed, y.stops, k, s'.rows[k]) {
      FinishEarned(y.store, y.executed, y.stops, agent, w, id, k);
    }
    FinishedSystem(y, s');
  }

  lemma FinishKeepsKeys(s: Store, id: TaskId, agent: AgentId, status: Status, result: Option<Doc>, error: Option<Note>)
    ensures Finish(s, id, agent, status, result, error).rows.Keys == s.rows.Keys
  {
  }

  lemma PendingOf(y: System, agent: AgentId, id: TaskId)
    requires Inv(y) && agent in y.workers && id in y.workers[agent].pending
    ensures PendingOk(y.store, y.executed, y.stops, agent, y.workers[agent], id)
  {
    hide Inv, PendingOk;
    WorkerOf(y, agent);
  }

  lemma FinishedSystem(y: System, s': Store)
    requires Inv(y) && StoreInv(s') && QueueDiscipline(s') && StoreEvolves(y.store, s')
    requires forall id :: id in s'.rows ==> Earned(y.executed, y.stops, id, s'.rows[id])
    requires s'.rows.Keys == y.store.rows.Keys
    ensures Inv(y.(store := s'))
  {
    hide CoreInv, RunsInv, StoreInv, QueueDiscipline, StoreEvolves, Earned;
    StoreChange(y, s');
    RunsStable(y, s');
  }

  lemma OnlyPending(pending: map<TaskId, Completion>, id: TaskId)
    requires |pending| <= 1 && id in pending
    ensures pending.Keys == {id} && pending - {id} == map[]
  {
    assert |pending.Keys - {id}| == |pending.Keys| - 1 && |pending.Keys| == |pending|;
    assert pending.Keys - {id} == {};
  }

  lemma AcknowledgeStep(y: System, agent: AgentId, id: TaskId, now: int)
    requires Inv(y) && agent in y.workers && y.workers[agent].phase.Idle? && id in y.workers[agent].pending
    ensures var w := y.workers[agent];
            Inv(y.(workers := y.workers[agent := w.(pending := w.pending - {id}, lastContact := now)]))
  {
    hide Inv, Held;
    var w := y.workers[agent];
    var w' := w.(pending := w.pending - {id}, lastContact := now);
    WorkerOf(y, agent);
    OnlyPending(w.pending, id);
    forall kind: Service, k | k in w'.services.Of(kind) ensures ServiceOk(y.store, y.executed, agent, kind, k) {
      assert ServiceOk(y.store, y.executed, agent, kind, k);
    }
    WorkerChange(y, agent, w');
  }

  // ---- Runs ------------------------------------------------------------------

  lemma RunOf(y: System, run: RunId)
    requires Inv(y) && run in y.runs
    ensures (!y.runs[run].pc.Lost? ==> O.RunInv(y.runs[run])) && RunStoreInv(y.store, y.stops, run, y.runs[run])
  {
    hide CoreInv, O.RunInv, RunStoreInv;
  }

  lemma RunChange(y: System, run: RunId, r: O.Run)
    requires Inv(y) && (!r.pc.Lost? ==> O.RunInv(r)) && RunStoreInv(y.store, y.stops, run, r)
    ensures Inv(y.(runs := y.runs[run := r]))
  {
    hide StoreInv, QueueDiscipline, O.RunInv, RunStoreInv, WorkerInv, Earned, StopInv, ExecutedInv;
    var y' := y.(runs := y.runs[run := r]);
    assert CoreInv(y') by { SameCore(y, y'); }
  }

  lemma SameCore(y: System, y': System)
    requires CoreInv(y)
    requires y'.store == y.store && y'.workers == y.workers && y'.executed == y.executed && y'.stops == y.stops
    ensures CoreInv(y')
  {
    hide StoreInv, QueueDiscipline, WorkerInv, Earned;
    forall stop | stop in y'.stops ensures StopInv(y', stop) { assert StopInv(y, stop); }
  }

  lemma StartRunStep(y: System, run: RunId, flow: O.Flow, target: AgentId, generator: AgentId, secret: Secret)
    requires Inv(y)
    ensures Inv(Next(y, StartRun(run, flow, target, generator, secret)))
  {
    hide Inv, O.RunInv, BoundedSecret;
    if CanStart(y, run, flow, secret) {
      O.BeginInv(flow, target, generator, secret);
      RunChange(y, run, O.Begin(flow, target, generator, secret));
    }
  }

  /** Only an accepted answer completes a step, and the row then says completed. */
  lemma AnswerCompletes(s: Store, r: O.Run, e: O.Event)
    requires O.RunInv(r) && Observable(s, r, e) && r.pc.Wait?
    ensures var r' := O.Advance(r, e);
            r'.steps == r.steps
            || (r'.steps == r.steps + 1 && r.steps < |r.tasks| && StepBacked(s, r.tasks[r.steps]))
  {
    hide O.Shape, O.Flags, O.OnRescue, O.PlanFacts, O.Reports, O.Measured;
    assert O.OnPlan(r) && O.Position(r);
  }

  lemma QuietEventShape(s: Store, r: O.Run, e: O.Event)
    requires !r.pc.Lost? ==> O.RunInv(r)
    requires Observable(s, r, e) && !(e.TaskCreated? && AwaitsCreation(r))
    ensures var r' := O.Advance(r, e);
      && r'.tasks == r.tasks && r'.server == r.server && r'.flow == r.flow
      && r'.target == r.target && r'.generator == r.generator && r'.secret == r.secret
      && (O.Normal(r'.pc) ==> O.Normal(r.pc))
      && (r'.steps == r.steps
          || (r'.steps == r.steps + 1 && r.steps < |r.tasks| && StepBacked(s, r.tasks[r.steps])))
  {
    hide O.RunInv, O.Reports, O.Inspected, StepBacked, Observable, O.Handle, O.HandleStop, O.Enter;
    O.HandleKeepsPlan(r);
    if r.pc.Step? { O.EnterKeepsPlan(r, r.pc.i + 1); }
    if r.pc.Wait? { AnswerCompletes(s, r, e); }
  }

  lemma QuietEvent(s: Store, stops: map<TaskId, bool>, run: RunId, r: O.Run, e: O.Event)
    requires !r.pc.Lost? ==> O.RunInv(r)
    requires RunStoreInv(s, stops, run, r) && Observable(s, r, e)
    requires !(e.TaskCreated? && AwaitsCreation(r))
    ensures RunStoreInv(s, stops, run, O.Advance(r, e))
  {
    hide O.RunInv, O.Advance, StepBacked, Observable, BoundedSecret, AwaitsCreation;
    var r' := O.Advance(r, e);
    QuietEventShape(s, r, e);
    SameIds(r, r');
    forall i | 0 <= i < |r'.tasks| ensures TaskBacked(s, run, r', i) {
      StillBacked(s, run, r, r', i);
    }
    hide TaskBacked, TaskIds;
  }

  lemma SameIds(r: O.Run, r': O.Run)
    requires r'.tasks == r.tasks
    ensures TaskIds(r') == TaskIds(r)
  {
  }

  lemma StillBacked(s: Store, run: RunId, r: O.Run, r': O.Run, i: nat)
    requires r'.tasks == r.tasks && r'.server == r.server && r'.flow == r.flow
    requires r'.target == r.target && r'.generator == r.generator && r'.secret == r.secret
    requires i < |r.tasks| && TaskBacked(s, run, r, i)
    ensures TaskBacked(s, run, r', i)
  {
  }

  lemma TaskForIsAccepted(y: System, run: RunId, id: TaskId, now: int)
    requires Inv(y) && run in y.runs && AwaitsCreation(y.runs[run]) && id !in y.store.rows
    ensures var t := TaskFor(run, y.runs[run], id, now);
      && CreateError(y.store, t).None? && t.run == run && t.id == id
      && Insert(y.store, t) == Apply(y.store, OpCreate(t))
  {
    hide Inv, O.RunInv, BoundedSecret, Insert, O.StageWork;
    RunOf(y, run);
  }

  lemma CreatingEvent(y: System, run: RunId, id: TaskId, now: int)
    requires Inv(y) && run in y.runs && AwaitsCreation(y.runs[run]) && id !in y.store.rows
    ensures Inv(RunStepped(y, run, O.TaskCreated(id), now))
  {
    hide O.RunInv, RunStoreInv, TaskFor, Insert, O.Advance, QueueDiscipline, WorkersInv, ExecutedInv,
      EarnedInv, StopsInv, StoreEvolves, Apply, SecretsExact, RowsOk, OrdersDistinct;
    var r := y.runs[run];
    var t := TaskFor(run, r, id, now);
    var s' := Insert(y.store, t);
    var r' := O.Advance(r, O.TaskCreated(id));
    RunOf(y, run);
    TaskForIsAccepted(y, run, id, now);
    if id in y.stops { StopOf(y, id); }
    UnknownIsUnissued(y.store, id);
    StoreStep(y, OpCreate(t));
    ApplyFacts(y.store, OpCreate(t));
    CreatedRunInv(y.store, s', y.stops, run, r, id, now);
    O.AdvanceInv(r, O.TaskCreated(id));
    forall other | other in y.runs && other != run ensures RunStoreInv(s', y.stops, other, y.runs[other]) {
      OtherRunStable(y, s', t, run, other);
    }
    SameCore(y.(store := s'), RunStepped(y, run, O.TaskCreated(id), now));
  }

  lemma UnknownIsUnissued(s: Store, id: TaskId)
    requires StoreInv(s) && id !in s.rows
    ensures id !in s.issued
  {
  }

  lemma OtherRunStable(y: System, s': Store, t: NewTask, run: RunId, other: RunId)
    requires Inv(y) && other in y.runs && other != run && t.run == run
    requires s' == Insert(y.store, t) && StoreEvolves(y.store, s')
    ensures RunStoreInv(s', y.stops, other, y.runs[other])
  {
    RunOf(y, other);
    hide Inv, StoreEvolves, RunStoreInv, O.RunInv;
    RunStable(y.store, s', y.stops, other, y.runs[other]);
  }

  lemma ServerSettled(r: O.Run, id: TaskId)
    requires O.RunInv(r) && AwaitsCreation(r)
    ensures var r' := O.Advance(r, O.TaskCreated(id));
      && r'.tasks == r.tasks + [O.Created(StageToCreate(r), id)]
      && r'.flow == r.flow && r'.target == r.target && r'.generator == r.generator && r'.secret == r.secret
      && (r.tasks != [] ==> r'.server == r.server)
      && (StageToCreate(r).StStart? || r'.server == r.server)
  {
    hide O.OnRescue, O.Flags, O.Shape;
    if r.pc.Create? && r.tasks != [] { assert !r.plan[r.pc.i].StStart?; }
  }

  lemma CreatedTaskBacked(s: Store, s': Store, run: RunId, r: O.Run, id: TaskId, now: int, i: nat)
    requires RowsOk(s) && (r.tasks != [] ==> TaskBacked(s, run, r, 0))
    requires O.RunInv(r) && AwaitsCreation(r) && id !in s.rows && id !in s.issued && i <= |r.tasks|
    requires i < |r.tasks| ==> TaskBacked(s, run, r, i)
    requires s' == Insert(s, TaskFor(run, r, id, now))
    ensures var r' := O.Advance(r, O.TaskCreated(id)); i < |r'.tasks| && TaskBacked(s', run, r', i)
  {
    hide O.RunInv, O.Advance;
    var r' := O.Advance(r, O.TaskCreated(id));
    ServerSettled(r, id);
    if r.tasks != [] {
      assert r'.tasks[0] == r.tasks[0] && RowOk(s.rows[r.tasks[0].id], |s.rows|);
    }
    if i < |r.tasks| { assert r'.tasks[i] == r.tasks[i]; }
  }

  lemma CreatedShape(r: O.Run, id: TaskId)
    requires O.RunInv(r) && AwaitsCreation(r)
    ensures var r' := O.Advance(r, O.TaskCreated(id));
      && r'.tasks == r.tasks + [O.Created(StageToCreate(r), id)]
      && r'.steps == r.steps && r'.secret == r.secret && r'.flow == r.flow
      && (O.Normal(r'.pc) ==> O.Normal(r.pc) && r.steps <= |r.tasks|)
  {
    hide O.Shape, O.Flags, O.OnRescue, O.PlanFacts;
  }

  lemma CreatedRowsKnown(s: Store, s': Store, run: RunId, r: O.Run, r': O.Run, id: TaskId)
    requires forall k :: k in s.rows && s.rows[k].run == run ==> k in TaskIds(r)
    requires forall k :: k in s'.rows && k != id ==> k in s.rows && s'.rows[k].run == s.rows[k].run
    requires |r'.tasks| == |r.tasks| + 1 && r'.tasks[|r.tasks|].id == id
    requires forall i :: 0 <= i < |r.tasks| ==> r'.tasks[i] == r.tasks[i]
    ensures forall k :: k in s'.rows && s'.rows[k].run == run ==> k in TaskIds(r')
  {
    forall k | k in s'.rows && s'.rows[k].run == run ensures k in TaskIds(r') {
      if k != id {
        assert k in TaskIds(r);
        var i :| 0 <= i < |r.tasks| && r.tasks[i].id == k;
        assert r'.tasks[i].id == k;
      } else {
        assert r'.tasks[|r.tasks|].id == k;
      }
    }
  }

  lemma CreatedStepsStand(s: Store, s': Store, stops: map<TaskId, bool>, run: RunId, r: O.Run, r': O.Run)
    requires RunStoreInv(s, stops, run, r) && O.Normal(r.pc) && r'.steps == r.steps <= |r.tasks| <= |r'.tasks|
    requires forall i :: 0 <= i < |r.tasks| ==> r'.tasks[i] == r.tasks[i]
    requires forall k :: k in s.rows ==> k in s'.rows && s'.rows[k] == s.rows[k]
    ensures forall i :: 0 <= i < r'.steps && i < |r'.tasks| ==> StepBacked(s', r'.tasks[i])
  {
    hide TaskBacked, BoundedSecret;
    forall i | 0 <= i < r'.steps && i < |r'.tasks| ensures StepBacked(s', r'.tasks[i]) {
      assert r'.tasks[i] == r.tasks[i] && StepBacked(s, r.tasks[i]);
    }
  }

  lemma CreatedAllBacked(s: Store, s': Store, stops: map<TaskId, bool>, run: RunId, r: O.Run, id: TaskId, now: int)
    requires O.RunInv(r) && RunStoreInv(s, stops, run, r) && AwaitsCreation(r)
    requires RowsOk(s) && id !in s.rows && id !in s.issued && s' == Insert(s, TaskFor(run, r, id, now))
    ensures var r' := O.Advance(r, O.TaskCreated(id));
      forall i :: 0 <= i < |r'.tasks| ==> TaskBacked(s', run, r', i)
  {
    hide O.RunInv, O.Advance, TaskBacked, BoundedSecret, RowsOk, Insert, TaskFor, AwaitsCreation;
    CreatedShape(r, id);
    var r' := O.Advance(r, O.TaskCreated(id));
    forall i | 0 <= i < |r'.tasks| ensures TaskBacked(s', run, r', i) {
      CreatedTaskBacked(s, s', run, r, id, now, i);
    }
  }

  lemma CreatedRunInv(
    s: Store, s': Store, stops: map<TaskId, bool>, run: RunId, r: O.Run, id: TaskId, now: int)
    requires O.RunInv(r) && RunStoreInv(s, stops, run, r) && AwaitsCreation(r)
    requires RowsOk(s) && id !in s.rows && id !in s.issued && id !in stops
    requires s' == Insert(s, TaskFor(run, r, id, now))
    ensures RunStoreInv(s', stops, run, O.Advance(r, O.TaskCreated(id)))
  {
    hide O.RunInv, O.Advance, TaskBacked, BoundedSecret, TaskIds, StepBacked, RowsOk, AwaitsCreation, StageToCreate;
    var r' := O.Advance(r, O.TaskCreated(id));
    CreatedShape(r, id);
    CreatedAllBacked(s, s', stops, run, r, id, now);
    assert forall i :: 0 <= i < |r.tasks| ==> r'.tasks[i] == r.tasks[i];
    CreatedRowsKnown(s, s', run, r, r', id);
    if O.Normal(r'.pc) { CreatedStepsStand(s, s', stops, run, r, r'); }
  }

  lemma RunEventStep(y: System, run: RunId, e: O.Event, now: int)
    requires Inv(y)
    ensures Inv(Next(y, RunEvent(run, e, now)))
  {
    if run in y.runs && Observable(y.store, y.runs[run], e) {
      var r := y.runs[run];
      RunOf(y, run);
      hide Inv, O.RunInv, RunStoreInv;
      if e.TaskCreated? && AwaitsCreation(r) {
        CreatingEvent(y, run, e.id, now);
      } else {
        if !r.pc.Lost? { O.AdvanceInv(r, e); }
        QuietEvent(y.store, y.stops, run, r, e);
        RunChange(y, run, O.Advance(r, e));
      }
    }
  }

  lemma RestartStep(y: System)
    requires Inv(y)
    ensures Inv(Next(y, Restart))
  {
    hide CoreInv, O.RunInv, RunStoreInv, Recover, LoseRun;
    ControllerStep(y, OpRecover);
    var y' := y.(store := Recover(y.store));
    forall run | run in y.runs
      ensures (!LoseRun(y.runs[run]).pc.Lost? ==> O.RunInv(LoseRun(y.runs[run])))
           && RunStoreInv(y'.store, y.stops, run, LoseRun(y.runs[run]))
    {
      RunOf(y', run);
      LostRun(y'.store, y.stops, run, y.runs[run]);
    }
    SameCore(y', Next(y, Restart));
  }

  lemma LostRun(s: Store, stops: map<TaskId, bool>, run: RunId, r: O.Run)
    requires RunStoreInv(s, stops, run, r)
    ensures RunStoreInv(s, stops, run, LoseRun(r)) && (LoseRun(r) == r || LoseRun(r).pc.Lost?)
  {
    hide BoundedSecret, StepBacked, O.StageWork, O.OnTarget, O.CarriesSecret, IssuedFor, O.StopMade;
    var r' := LoseRun(r);
    assert TaskIds(r') == TaskIds(r);
    forall i | 0 <= i < |r'.tasks| ensures TaskBacked(s, run, r', i) {
      assert TaskBacked(s, run, r, i);
    }
  }

  lemma NextInv(y: System, step: Step)
    requires Inv(y)
    ensures Inv(Next(y, step))
  {
    hide Inv;
    match step
    case ForeignCreate(t) => if t.run !in y.runs { ControllerStep(y, OpCreate(t)); }
    case AbortTask(id, note) => ControllerStep(y, OpAbort(id, note));
    case CancelRun(run) => ControllerStep(y, OpCancelQueued(run));
    case Restart => RestartStep(y);
    case StartRun(run, flow, target, generator, secret) => StartRunStep(y, run, flow, target, generator, secret);
    case RunEvent(run, e, now) => RunEventStep(y, run, e, now);
    case Join(agent, now) => JoinStep(y, agent, now);
    case Heartbeat(agent, now) => HeartbeatStep(y, agent, now);
    case Tidy(agent, now, stopped) => TidyStep(y, agent, now, stopped);
    case ClaimTask(agent, id, delivered, now) => ClaimStep(y, agent, id, delivered, now);
    case ReportProgress(agent, meter, result) =>
      if Working(y, agent) { ControllerStep(y, OpProgress(y.workers[agent].phase.task, agent, meter, result)); }
    case Execute(agent, now, out) => ExecuteStep(y, agent, now, out);
    case Post(agent, id, arrives, acknowledged, now) => PostStep(y, agent, id, arrives, acknowledged, now);
    case Halt(agent) => HaltStep(y, agent);
  }

  lemma {:induction false} StepsInv(y: System, steps: seq<Step>)
    requires Inv(y)
    ensures Inv(Steps(y, steps))
    decreases |steps|
  {
    if steps != [] {
      NextInv(y, steps[0]);
      StepsInv(Next(y, steps[0]), steps[1..]);
    }
  }

  // ---- Every step is at most one call of the store ---------------------------------

  /** The `Database` call a step makes, if it makes one. */
  function StoreCall(y: System, step: Step): Option<Op> {
    match step
    case ForeignCreate(t) => if t.run in y.runs then None else Some(OpCreate(t))
    case AbortTask(id, note) => Some(OpAbort(id, note))
    case CancelRun(run) => Some(OpCancelQueued(run))
    case Restart => Some(OpRecover)
    case RunEvent(run, e, now) =>
      if run in y.runs && Observable(y.store, y.runs[run], e) && e.TaskCreated? && AwaitsCreation(y.runs[run])
      then Some(OpCreate(TaskFor(run, y.runs[run], e.id, now))) else None
    case ClaimTask(agent, id, _, _) =>
      if Ready(y, agent) && y.workers[agent].pending == map[] then Some(OpClaim(agent, id)) else None
    case ReportProgress(agent, meter, result) =>
      if Working(y, agent) then Some(OpProgress(y.workers[agent].phase.task, agent, meter, result)) else None
    case Post(agent, id, arrives, _, _) =>
      if Ready(y, agent) && id in y.workers[agent].pending && arrives
      then
        var done := y.workers[agent].pending[id];
        Some(OpFinish(id, agent, done.status, done.result, done.error))
      else None
    case _ => None
  }

  lemma ApplyIs(s: Store, op: Op)
    ensures Apply(s, op) == match op
      case OpCreate(t) => Create(s, t)
      case OpClaim(agent, id) => Claim(s, agent, id)
      case OpFinish(id, agent, status, result, error) => Finish(s, id, agent, status, result, error)
      case OpProgress(id, agent, meter, result) => Progress(s, id, agent, meter, result)
      case OpAbort(id, note) => Abort(s, id, note)
      case OpCancelQueued(run) => CancelQueued(s, run)
      case OpRecover => Recover(s)
  {
  }

  function Called(s: Store, call: Option<Op>): Store { if call.Some? then Apply(s, call.value) else s }

  lemma OneCall(y: System, step: Step)
    requires Inv(y)
    ensures Next(y, step).store == Called(y.store, StoreCall(y, step))
  {
    hide Inv, Apply, Create, Finish, Progress, Abort, CancelQueued, Recover, AfterWork, StopsAfter, TaskFor,
         AwaitsCreation, Observable, Tidied;
    if StoreCall(y, step).Some? { ApplyIs(y.store, StoreCall(y, step).value); }
    if step.RunEvent? { EventCall(y, step.run, step.event, step.now); }
  }

  lemma EventCall(y: System, run: RunId, e: O.Event, now: int)
    requires Inv(y)
    ensures Next(y, RunEvent(run, e, now)).store == Called(y.store, StoreCall(y, RunEvent(run, e, now)))
  {
    hide Inv, Apply, TaskFor, AwaitsCreation, O.Advance;
    if run in y.runs && Observable(y.store, y.runs[run], e) && e.TaskCreated? && AwaitsCreation(y.runs[run]) {
      TaskForIsAccepted(y, run, e.id, now);
      ApplyIs(y.store, OpCreate(TaskFor(run, y.runs[run], e.id, now)));
    }
  }
}
