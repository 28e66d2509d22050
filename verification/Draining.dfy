/**
  When the service of a start task can run at all: the exact condition behind the
  drain theorems, for every reachable state.
 */
module Draining {
  import opened Wrappers
  import opened TaskStore
  import opened WorkerState
  import opened Protocol
  import opened ProtocolProof
  import opened ProtocolTheorems

  /** `id` is the start task of a paired service on this Agent. */
  predicate Starts(y: System, agent: AgentId, kind: Service, id: TaskId) {
    id in y.store.rows && y.store.rows[id].agent == agent && y.store.rows[id].work == ServiceStart(kind)
  }

  predicate Active(y: System, agent: AgentId, kind: Service, id: TaskId) {
    agent in y.workers && id in y.workers[agent].services.Of(kind)
  }

  predicate Dead(y: System, agent: AgentId) { agent in y.workers && y.workers[agent].phase.Halted? }

  /** The worker is running the start task and no paired service is in its way. */
  predicate Starting(y: System, agent: AgentId, id: TaskId) {
    && agent in y.workers && y.workers[agent].phase.Executing? && y.workers[agent].phase.task == id
    && y.workers[agent].services.NoneActive()
  }

  /** Active now, being started, or still queued for an Agent that is not dead. */
  predicate MayRun(y: System, agent: AgentId, kind: Service, id: TaskId)
    requires Starts(y, agent, kind, id)
  {
    Active(y, agent, kind, id) || Starting(y, agent, id) || (y.store.rows[id].status.Queued? && !Dead(y, agent))
  }

  // ---- If none of these holds, the service never runs again -----------------------

  lemma RowAfter(y: System, step: Step, agent: AgentId, kind: Service, id: TaskId)
    requires Inv(y) && Starts(y, agent, kind, id)
    ensures Starts(Next(y, step), agent, kind, id)
    ensures Next(y, step).store.rows[id].status.Queued? ==> y.store.rows[id].status.Queued?
  {
    hide Inv, Next;
    NextEvolves(y, step);
    assert Evolves(y.store.rows[id], Next(y, step).store.rows[id]);
  }

  /** The steps that touch a worker; every other step leaves all workers alone. */
  predicate MovesWorker(step: Step) {
    step.Join? || step.Heartbeat? || step.Tidy? || step.ClaimTask? || step.Execute? || step.Post? || step.Halt?
  }

  lemma OthersLeaveWorkers(y: System, step: Step)
    requires !MovesWorker(step)
    ensures Next(y, step).workers == y.workers
  {
    hide Create, Abort, CancelQueued, Recover, Progress, Observable, TaskFor, BoundedSecret;
  }

  lemma SpentByExecute(y: System, agent: AgentId, now: int, out: Outcome, kind: Service, id: TaskId)
    requires Starts(y, agent, kind, id) && Working(y, agent)
    requires !Active(y, agent, kind, id) && !Starting(y, agent, id)
    ensures !Active(Executed(y, agent, now, out), agent, kind, id)
  {
    var w := y.workers[agent];
    var work := y.store.rows[w.phase.task].work;
    if id in ServicesAfter(w.services, w.phase.task, work, now, out).Of(kind) {
      ServiceOrigin(w.services, w.phase.task, work, now, out, kind, id);
    }
  }

  lemma SpentByTidy(w: Worker, now: int, stopped: set<TaskId>, kind: Service, id: TaskId)
    requires id !in w.services.Of(kind)
    ensures id !in Tidied(w.services, now, ContactExpired(w.lastContact, now), stopped).Of(kind)
  {
  }

  lemma SpentClaim(y: System, a: AgentId, k: TaskId, delivered: bool, now: int, agent: AgentId, kind: Service, id: TaskId)
    requires Starts(y, agent, kind, id) && !MayRun(y, agent, kind, id)
    ensures var y' := Next(y, ClaimTask(a, k, delivered, now));
      !Active(y', agent, kind, id) && !Starting(y', agent, id) && (Dead(y, agent) ==> Dead(y', agent))
  {
    hide Claim;
  }

  lemma SpentTidy(y: System, a: AgentId, now: int, stopped: set<TaskId>, agent: AgentId, kind: Service, id: TaskId)
    requires Starts(y, agent, kind, id) && !MayRun(y, agent, kind, id)
    ensures var y' := Next(y, Tidy(a, now, stopped));
      !Active(y', agent, kind, id) && !Starting(y', agent, id) && (Dead(y, agent) ==> Dead(y', agent))
  {
    if a == agent && Ready(y, a) { SpentByTidy(y.workers[a], now, stopped, kind, id); }
    hide Tidied;
  }

  lemma SpentExecute(y: System, a: AgentId, now: int, out: Outcome, agent: AgentId, kind: Service, id: TaskId)
    requires Starts(y, agent, kind, id) && !MayRun(y, agent, kind, id)
    ensures var y' := Next(y, Execute(a, now, out));
      !Active(y', agent, kind, id) && !Starting(y', agent, id) && (Dead(y, agent) ==> Dead(y', agent))
  {
    if a == agent && Working(y, a) { SpentByExecute(y, a, now, out, kind, id); }
    hide ServicesAfter, CompletionOf, StopsAfter;
  }

  lemma SpentElsewhere(y: System, step: Step, agent: AgentId, kind: Service, id: TaskId)
    requires Starts(y, agent, kind, id) && !MayRun(y, agent, kind, id)
    requires step.Join? || step.Heartbeat? || step.Halt?
    ensures !Active(Next(y, step), agent, kind, id) && !Starting(Next(y, step), agent, id)
    ensures Dead(y, agent) ==> Dead(Next(y, step), agent)
  {
  }

  lemma SpentPost(y: System, a: AgentId, k: TaskId, arrives: bool, acknowledged: bool, now: int,
                  agent: AgentId, kind: Service, id: TaskId)
    requires Starts(y, agent, kind, id) && !MayRun(y, agent, kind, id)
    ensures var y' := Next(y, Post(a, k, arrives, acknowledged, now));
      !Active(y', agent, kind, id) && !Starting(y', agent, id) && (Dead(y, agent) ==> Dead(y', agent))
  {
    hide Finish, FinishReply;
  }

  lemma SpentByOthers(y: System, step: Step, agent: AgentId, kind: Service, id: TaskId)
    requires Starts(y, agent, kind, id) && !MayRun(y, agent, kind, id) && !MovesWorker(step)
    ensures !Active(Next(y, step), agent, kind, id) && !Starting(Next(y, step), agent, id)
    ensures Dead(y, agent) ==> Dead(Next(y, step), agent)
  {
    hide Next;
    OthersLeaveWorkers(y, step);
  }

  lemma NotAmong(step: Step)
    ensures MovesWorker(step) <==>
      step.Join? || step.Heartbeat? || step.Tidy? || step.ClaimTask? || step.Execute? || step.Post? || step.Halt?
  {
  }

  lemma StillSpent(y: System, y': System, agent: AgentId, kind: Service, id: TaskId)
    requires Starts(y, agent, kind, id) && !MayRun(y, agent, kind, id) && Starts(y', agent, kind, id)
    requires y'.store.rows[id].status.Queued? ==> y.store.rows[id].status.Queued?
    requires !Active(y', agent, kind, id) && !Starting(y', agent, id) && (Dead(y, agent) ==> Dead(y', agent))
    ensures !MayRun(y', agent, kind, id)
  {
  }

  lemma SpentMove(y: System, step: Step, agent: AgentId, kind: Service, id: TaskId)
    requires Starts(y, agent, kind, id) && !MayRun(y, agent, kind, id)
    ensures !Active(Next(y, step), agent, kind, id) && !Starting(Next(y, step), agent, id)
    ensures Dead(y, agent) ==> Dead(Next(y, step), agent)
  {
    hide Next, Active, Starting, Dead, Starts, MayRun, MovesWorker;
    NotAmong(step);
    match step
    case ClaimTask(a, k, delivered, now) => SpentClaim(y, a, k, delivered, now, agent, kind, id);
    case Tidy(a, now, stopped) => SpentTidy(y, a, now, stopped, agent, kind, id);
    case Execute(a, now, out) => SpentExecute(y, a, now, out, agent, kind, id);
    case Join(_, _) => SpentElsewhere(y, step, agent, kind, id);
    case Heartbeat(_, _) => SpentElsewhere(y, step, agent, kind, id);
    case Post(a, k, arrives, acknowledged, now) => SpentPost(y, a, k, arrives, acknowledged, now, agent, kind, id);
    case Halt(_) => SpentElsewhere(y, step, agent, kind, id);
    case _ => SpentByOthers(y, step, agent, kind, id);
  }

  lemma SpentStep(y: System, step: Step, agent: AgentId, kind: Service, id: TaskId)
    requires Inv(y) && Starts(y, agent, kind, id) && !MayRun(y, agent, kind, id)
    ensures Starts(Next(y, step), agent, kind, id) && !MayRun(Next(y, step), agent, kind, id)
  {
    hide Next, Inv, Active, Starting, Dead, MayRun;
    RowAfter(y, step, agent, kind, id);
    SpentMove(y, step, agent, kind, id);
    StillSpent(y, Next(y, step), agent, kind, id);
  }

  lemma {:induction false} SpentForever(y: System, steps: seq<Step>, agent: AgentId, kind: Service, id: TaskId)
    requires Inv(y) && Starts(y, agent, kind, id) && !MayRun(y, agent, kind, id)
    ensures !Active(Steps(y, steps), agent, kind, id)
    decreases |steps|
  {
    hide Inv, Next;
    if steps != [] {
      NextInv(y, steps[0]);
      SpentStep(y, steps[0], agent, kind, id);
      SpentForever(Next(y, steps[0]), steps[1..], agent, kind, id);
    }
  }

  // ---- Otherwise some continuation starts it ---------------------------------------

  ghost predicate Leads(y: System, y': System) { exists steps :: Steps(y, steps) == y' }

  lemma LeadsStep(y: System, step: Step)
    ensures Leads(y, Next(y, step))
  {
    hide Next;
    StepsOne(y, step);
  }

  lemma LeadsHere(y: System)
    ensures Leads(y, y)
  {
    assert Steps(y, []) == y;
  }

  lemma LeadsOn(x: System, y: System, z: System)
    requires Leads(x, y) && Leads(y, z)
    ensures Leads(x, z)
  {
    hide Steps;
    var a :| Steps(x, a) == y;
    var b :| Steps(y, b) == z;
    StepsConcat(x, a, b);
  }

  /** No queued row is touched on the way from `y` to `y'`. */
  ghost predicate SameQueue(y: System, y': System) {
    forall k :: k in y.store.rows && y.store.rows[k].status.Queued? ==>
      k in y'.store.rows && y'.store.rows[k] == y.store.rows[k]
  }

  lemma ToIdle(y: System, agent: AgentId) returns (y': System)
    requires Inv(y) && !Dead(y, agent)
    ensures Inv(y') && Ready(y', agent) && SameQueue(y, y') && Leads(y, y')
  {
    hide Inv, Leads;
    if agent !in y.workers {
      y' := Next(y, Join(agent, 0));
      NextInv(y, Join(agent, 0));
      LeadsStep(y, Join(agent, 0));
    } else if y.workers[agent].phase.Executing? {
      WorkerOf(y, agent);
      assert Working(y, agent);
      y' := Next(y, Execute(agent, 0, Crash(false)));
      NextInv(y, Execute(agent, 0, Crash(false)));
      LeadsStep(y, Execute(agent, 0, Crash(false)));
    } else {
      y' := y;
      LeadsHere(y);
    }
  }

  lemma QueuedIsUnclaimed(y: System, id: TaskId)
    requires Inv(y) && id in y.store.rows && y.store.rows[id].status.Queued?
    ensures !y.store.rows[id].claimed
  {
    StoreOf(y);
    assert RowOk(y.store.rows[id], |y.store.rows|);
  }

  lemma Unload(y: System, agent: AgentId) returns (y': System)
    requires Inv(y) && Ready(y, agent)
    ensures Inv(y') && Ready(y', agent) && y'.workers[agent].pending == map[] && SameQueue(y, y') && Leads(y, y')
  {
    hide Inv, Leads;
    if y.workers[agent].pending == map[] {
      y' := y;
      LeadsHere(y);
    } else {
      var p :| p in y.workers[agent].pending;
      var step := Post(agent, p, true, true, 0);
      y' := Next(y, step);
      NextInv(y, step);
      LeadsStep(y, step);
      PendingSettles(y, agent, p, 0);
      assert y' == Posted(y, agent, p, true, 0);
      PendingOf(y, agent, p);
      forall k | k in y.store.rows && y.store.rows[k].status.Queued?
        ensures k in y'.store.rows && y'.store.rows[k] == y.store.rows[k]
      {
        QueuedIsUnclaimed(y, k);
      }
    }
  }

  lemma Sweep(y: System, agent: AgentId) returns (y': System)
    requires Inv(y) && Ready(y, agent) && y.workers[agent].pending == map[]
    ensures Inv(y') && Ready(y', agent) && y'.workers[agent].pending == map[] && SameQueue(y, y') && Leads(y, y')
    ensures y'.workers[agent].services.NoneActive()
  {
    hide Inv, Leads;
    var w := y.workers[agent];
    var all := w.services.database.Keys + w.services.web.Keys + w.services.redis.Keys + w.services.mysql.Keys;
    var step := Tidy(agent, w.lastContact + CONTACT_TIMEOUT + 1, all);
    y' := Next(y, step);
    NextInv(y, step);
    LeadsStep(y, step);
    var s := y'.workers[agent].services;
    assert s.database.Keys == {} && s.web.Keys == {} && s.redis.Keys == {} && s.mysql.Keys == {};
  }

  /** The tasks queued for this Agent beside those in `keep`. */
  function Rivals(s: Store, agent: AgentId, keep: set<TaskId>): set<TaskId> {
    set k | k in s.rows && QueuedFor(s, agent, k) && k !in keep
  }

  lemma RivalAborted(s: Store, agent: AgentId, keep: set<TaskId>, k: TaskId)
    requires k in Rivals(s, agent, keep)
    ensures Rivals(Abort(s, k, Reported(0)), agent, keep) == Rivals(s, agent, keep) - {k}
    ensures forall other :: other in s.rows && other != k ==>
      other in Abort(s, k, Reported(0)).rows && Abort(s, k, Reported(0)).rows[other] == s.rows[other]
  {
  }

  lemma {:induction false} Clear(y: System, agent: AgentId, keep: set<TaskId>) returns (y': System)
    requires Inv(y)
    ensures Inv(y') && y'.workers == y.workers && Rivals(y'.store, agent, keep) == {} && Leads(y, y')
    ensures forall k :: k in keep && k in y.store.rows ==> k in y'.store.rows && y'.store.rows[k] == y.store.rows[k]
    decreases |Rivals(y.store, agent, keep)|
  {
    hide Inv, Leads;
    var rivals := Rivals(y.store, agent, keep);
    if rivals == {} {
      y' := y;
      LeadsHere(y);
    } else {
      var k :| k in rivals;
      var step := AbortTask(k, Reported(0));
      var next := Next(y, step);
      NextInv(y, step);
      LeadsStep(y, step);
      RivalAborted(y.store, agent, keep, k);
      hide Rivals, Abort;
      y' := Clear(next, agent, keep);
      LeadsOn(y, next, y');
    }
  }

  /** The Agent is idle with nothing to post and nothing running, and only `keep` may be waiting for it. */
  ghost predicate Cleared(y: System, agent: AgentId, keep: set<TaskId>) {
    && Inv(y) && Ready(y, agent) && y.workers[agent].pending == map[]
    && y.workers[agent].services.NoneActive() && Rivals(y.store, agent, keep) == {}
  }

  ghost predicate QueuedStay(y: System, y': System, keep: set<TaskId>) {
    forall k :: k in keep && k in y.store.rows && y.store.rows[k].status.Queued? ==>
      k in y'.store.rows && y'.store.rows[k] == y.store.rows[k]
  }

  lemma MakeWay(y: System, agent: AgentId, keep: set<TaskId>) returns (y': System)
    requires Inv(y) && !Dead(y, agent)
    ensures Cleared(y', agent, keep) && QueuedStay(y, y', keep) && Leads(y, y')
  {
    hide Inv, Leads, Rivals, Dead;
    var y1 := ToIdle(y, agent);
    var y2 := Unload(y1, agent);
    var y3 := Sweep(y2, agent);
    y' := Clear(y3, agent, keep);
    LeadsOn(y, y1, y2);
    LeadsOn(y, y2, y3);
    LeadsOn(y, y3, y');
  }

  /** With nothing else in the queue, the oldest of what was kept is taken next. */
  lemma Take(y: System, agent: AgentId, keep: set<TaskId>, id: TaskId) returns (y': System)
    requires Cleared(y, agent, keep) && QueuedFor(y.store, agent, id)
    requires forall k :: k in keep && QueuedFor(y.store, agent, k) ==> y.store.rows[id].createdAt <= y.store.rows[k].createdAt
    ensures y' == Next(y, ClaimTask(agent, id, true, 0)) && Inv(y') && Leads(y, y')
    ensures Starting(y', agent, id) && y'.workers[agent].pending == map[]
    ensures y'.store == Claim(y.store, agent, id) && OldestQueued(y.store, agent, id)
  {
    hide Inv, Leads, Claim;
    var step := ClaimTask(agent, id, true, 0);
    assert OldestQueued(y.store, agent, id) by {
      forall other | other in y.store.rows && QueuedFor(y.store, agent, other)
        ensures y.store.rows[id].createdAt <= y.store.rows[other].createdAt
      {
        assert other !in Rivals(y.store, agent, keep);
      }
    }
    y' := Next(y, step);
    NextInv(y, step);
    LeadsStep(y, step);
  }

  lemma Light(y: System, agent: AgentId, kind: Service, id: TaskId) returns (y': System)
    requires Starts(y, agent, kind, id) && Starting(y, agent, id)
    ensures Active(y', agent, kind, id) && Leads(y, y')
  {
    var step := Execute(agent, 0, Success(None, 60));
    y' := Next(y, step);
    LeadsStep(y, step);
    hide Leads;
    assert Working(y, agent);
  }

  lemma CanBeStarted(y: System, agent: AgentId, kind: Service, id: TaskId) returns (y': System)
    requires Inv(y) && Starts(y, agent, kind, id) && MayRun(y, agent, kind, id)
    ensures Active(y', agent, kind, id) && Leads(y, y')
  {
    hide Inv, Leads, Active, Starting, Ready, Cleared, Claim, OldestQueued;
    if Active(y, agent, kind, id) {
      y' := y;
      LeadsHere(y);
    } else if Starting(y, agent, id) {
      y' := Light(y, agent, kind, id);
    } else {
      var y1 := MakeWay(y, agent, {id});
      var y2 := Take(y1, agent, {id}, id);
      TakenStarts(y1, agent, kind, id);
      y' := Light(y2, agent, kind, id);
      LeadsOn(y, y1, y2);
      LeadsOn(y, y2, y');
    }
  }

  lemma TakenStarts(y: System, agent: AgentId, kind: Service, id: TaskId)
    requires Starts(y, agent, kind, id)
    ensures forall y': System :: y'.store == Claim(y.store, agent, id) ==> Starts(y', agent, kind, id)
  {
  }

  /**
    From any reachable state, the service of a start task is active in some future
    state exactly when it is active now, is being started with nothing in its way,
    or its task is still queued for an Agent that is not dead.
   */
  lemma ServiceMayRunIff(before: seq<Step>, agent: AgentId, kind: Service, id: TaskId)
    requires Starts(Steps(START, before), agent, kind, id)
    ensures var y := Steps(START, before);
      MayRun(y, agent, kind, id) <==> exists after :: Active(Steps(y, after), agent, kind, id)
  {
    hide Inv, Steps, Active, Starting, Dead;
    var y := Steps(START, before);
    Reached(before);
    if MayRun(y, agent, kind, id) {
      var y' := CanBeStarted(y, agent, kind, id);
      var after :| Steps(y, after) == y';
      assert Active(Steps(y, after), agent, kind, id);
    } else {
      forall after ensures !Active(Steps(y, after), agent, kind, id) {
        SpentForever(y, after, agent, kind, id);
      }
    }
  }

  /** So a completed stop task is final exactly when the start task it names can no longer run. */
  lemma StopIsFinalIff(before: seq<Step>, stop: TaskId)
    requires var y := Steps(START, before);
      && CompletedRow(y.store, stop) && y.store.rows[stop].work.ServiceStop?
      && Starts(y, y.store.rows[stop].agent, y.store.rows[stop].work.service, y.store.rows[stop].work.server)
    ensures var y := Steps(START, before);
      var row := y.store.rows[stop];
      && (MayRun(y, row.agent, row.work.service, row.work.server)
          <==> exists after :: Active(Steps(y, after), row.agent, row.work.service, row.work.server))
      && (Ahead(y.store.rows[row.work.server], row) ==> !MayRun(y, row.agent, row.work.service, row.work.server))
  {
    hide Inv, Steps, Active, Starting, Dead;
    var y := Steps(START, before);
    var row := y.store.rows[stop];
    ServiceMayRunIff(before, row.agent, row.work.service, row.work.server);
    if Ahead(y.store.rows[row.work.server], row) {
      forall after ensures !Active(Steps(y, after), row.agent, row.work.service, row.work.server) {
        CompletedStopIsFinal(before, after, stop);
        NotActiveIs(Steps(y, after), row.agent, row.work.service, row.work.server);
      }
    }
  }

  lemma NotActiveIs(y: System, agent: AgentId, kind: Service, id: TaskId)
    requires NotActive(y.workers, agent, kind, id)
    ensures !Active(y, agent, kind, id)
  {
  }

  // ---- A stop task that overtakes its start task -------------------------------------

  /** `stop` is the task that stops the service of `id`, on the same Agent. */
  predicate Stops(y: System, agent: AgentId, kind: Service, id: TaskId, stop: TaskId) {
    && Starts(y, agent, kind, id) && stop in y.store.rows
    && y.store.rows[stop].agent == agent && y.store.rows[stop].work == ServiceStop(kind, id)
  }

  predicate BothQueued(y: System, agent: AgentId, kind: Service, id: TaskId, stop: TaskId) {
    Stops(y, agent, kind, id, stop) && y.store.rows[id].status.Queued? && y.store.rows[stop].status.Queued?
  }

  lemma KeptQueued(y: System, y': System, agent: AgentId, kind: Service, id: TaskId, stop: TaskId)
    requires BothQueued(y, agent, kind, id, stop) && QueuedStay(y, y', {id, stop})
    ensures BothQueued(y', agent, kind, id, stop)
    ensures y'.store.rows[id] == y.store.rows[id] && y'.store.rows[stop] == y.store.rows[stop]
  {
  }

  /** The worker has just taken the stop task while the start task still waits. */
  ghost predicate Overtaking(y: System, agent: AgentId, kind: Service, id: TaskId, stop: TaskId) {
    && Inv(y) && Stops(y, agent, kind, id, stop) && Starting(y, agent, stop) && y.workers[agent].pending == map[]
    && y.store.rows[stop].status.Running? && y.store.rows[id].status.Queued?
  }

  lemma TakeStop(y: System, agent: AgentId, kind: Service, id: TaskId, stop: TaskId) returns (y': System)
    requires Cleared(y, agent, {id, stop}) && BothQueued(y, agent, kind, id, stop)
    requires y.store.rows[stop].createdAt <= y.store.rows[id].createdAt
    ensures Overtaking(y', agent, kind, id, stop) && Leads(y, y')
  {
    hide Inv, Leads, Rivals, OldestQueued;
    y' := Take(y, agent, {id, stop}, stop);
  }

  /** The stop task succeeds, finding nothing to stop, and its completion is acknowledged. */
  lemma StopInVain(y: System, agent: AgentId, kind: Service, id: TaskId, stop: TaskId) returns (y': System)
    requires Overtaking(y, agent, kind, id, stop)
    ensures Inv(y') && CompletedRow(y'.store, stop) && Leads(y, y')
    ensures Starts(y', agent, kind, id) && MayRun(y', agent, kind, id)
  {
    hide Inv, Leads;
    var run, post := Execute(agent, 0, Success(None, 0)), Post(agent, stop, true, true, 0);
    var next := Next(y, run);
    NextInv(y, run);
    LeadsStep(y, run);
    assert Ready(next, agent) && next.workers[agent].pending == map[stop := Completion(Completed, None, None)];
    y' := Next(next, post);
    NextInv(next, post);
    LeadsStep(next, post);
    LeadsOn(y, next, y');
  }

  lemma TerminalStays(y: System, y': System, id: TaskId)
    requires Inv(y) && CompletedRow(y.store, id) && Leads(y, y')
    ensures CompletedRow(y'.store, id)
  {
    hide Inv, Steps;
    var steps :| Steps(y, steps) == y';
    StepsEvolve(y, steps);
    assert Evolves(y.store.rows[id], y'.store.rows[id]);
  }

  lemma StopFirst(y: System, agent: AgentId, kind: Service, id: TaskId, stop: TaskId) returns (y': System)
    requires Inv(y) && !Dead(y, agent) && BothQueued(y, agent, kind, id, stop)
    requires y.store.rows[stop].createdAt <= y.store.rows[id].createdAt
    ensures CompletedRow(y'.store, stop) && Active(y', agent, kind, id) && Leads(y, y')
  {
    hide Inv, Leads, Dead, Cleared, BothQueued, QueuedStay, Overtaking, Starts, MayRun, Active, CompletedRow;
    var y1 := MakeWay(y, agent, {id, stop});
    KeptQueued(y, y1, agent, kind, id, stop);
    var y2 := TakeStop(y1, agent, kind, id, stop);
    var y3 := StopInVain(y2, agent, kind, id, stop);
    y' := CanBeStarted(y3, agent, kind, id);
    TerminalStays(y3, y', stop);
    LeadsOn(y, y1, y2);
    LeadsOn(y, y2, y3);
    LeadsOn(y, y3, y');
  }

  /** The start task carries the earlier timestamp, and the stop task has not overtaken it. */
  predicate InOrder(y: System, agent: AgentId, kind: Service, id: TaskId, stop: TaskId) {
    && Stops(y, agent, kind, id, stop)
    && y.store.rows[id].createdAt < y.store.rows[stop].createdAt
    && (y.store.rows[stop].claimed ==> !y.store.rows[id].status.Queued?)
    && (stop in y.stops ==> y.stops[stop])
  }

  lemma OrderedStore(s: Store, op: Op, id: TaskId, stop: TaskId)
    requires StoreInv(s) && id in s.rows && stop in s.rows && s.rows[id].agent == s.rows[stop].agent
    requires s.rows[id].createdAt < s.rows[stop].createdAt
    requires s.rows[stop].claimed ==> !s.rows[id].status.Queued?
    ensures var s' := Apply(s, op);
      && id in s'.rows && stop in s'.rows && Evolves(s.rows[id], s'.rows[id]) && Evolves(s.rows[stop], s'.rows[stop])
      && (s'.rows[stop].claimed ==> !s'.rows[id].status.Queued?)
  {
    ApplyFacts(s, op);
    hide StoreInv, Apply;
    var s' := Apply(s, op);
    assert Evolves(s.rows[id], s'.rows[id]) && Evolves(s.rows[stop], s'.rows[stop]);
    if s'.rows[stop].claimed { NewClaims(s, op, stop); }
  }

  /** Only a successful stop task adds to `stops`, by what the queue shows at that moment. */
  lemma StopsAfterStep(y: System, step: Step, stop: TaskId)
    requires Inv(y) && stop in y.store.rows && stop in Next(y, step).stops
    ensures (stop in y.stops && Next(y, step).stops[stop] == y.stops[stop])
         || (y.store.rows[stop].claimed && Next(y, step).stops[stop] == StartSettled(y.store, y.store.rows[stop]))
  {
    hide Inv, Create, Claim, Finish, FinishReply, Progress, Abort, CancelQueued, Recover, AfterWork, TaskFor, AwaitsCreation,
         Observable, Tidied, StartSettled, OldestQueued, O.Advance, BoundedSecret, LoseRun;
    if step.Execute? && Working(y, step.agent) {
      WorkerOf(y, step.agent);
    }
  }

  lemma InOrderStep(y: System, step: Step, agent: AgentId, kind: Service, id: TaskId, stop: TaskId)
    requires Inv(y) && InOrder(y, agent, kind, id, stop)
    ensures InOrder(Next(y, step), agent, kind, id, stop)
  {
    hide Inv, Next, StoreCall, Apply;
    StoreOf(y);
    hide StoreInv;
    OneCall(y, step);
    if StoreCall(y, step).Some? { OrderedStore(y.store, StoreCall(y, step).value, id, stop); }
    if stop in Next(y, step).stops { StopsAfterStep(y, step, stop); }
  }

  lemma {:induction false} InOrderSteps(y: System, steps: seq<Step>, agent: AgentId, kind: Service, id: TaskId, stop: TaskId)
    requires Inv(y) && InOrder(y, agent, kind, id, stop)
    ensures InOrder(Steps(y, steps), agent, kind, id, stop)
    decreases |steps|
  {
    hide Inv, InOrder, Next;
    if steps != [] {
      NextInv(y, steps[0]);
      InOrderStep(y, steps[0], agent, kind, id, stop);
      InOrderSteps(Next(y, steps[0]), steps[1..], agent, kind, id, stop);
    }
  }

  lemma OrderedStopIsFinal(y: System, agent: AgentId, kind: Service, id: TaskId, stop: TaskId)
    requires Inv(y) && InOrder(y, agent, kind, id, stop) && CompletedRow(y.store, stop)
    ensures !Active(y, agent, kind, id)
  {
    hide Inv, NotActive;
    StopRowEarned(y, stop);
    NotActiveIs(y, agent, kind, id);
  }

  lemma QueuedIsInOrder(y: System, agent: AgentId, kind: Service, id: TaskId, stop: TaskId)
    requires Inv(y) && BothQueued(y, agent, kind, id, stop)
    requires y.store.rows[id].createdAt < y.store.rows[stop].createdAt
    ensures InOrder(y, agent, kind, id, stop)
  {
    hide Inv;
    QueuedIsUnclaimed(y, stop);
    if stop in y.stops { StopOf(y, stop); }
  }

  /** The stop task has completed and the service it was to stop is active. */
  predicate StoppedYetActive(y: System, agent: AgentId, kind: Service, id: TaskId, stop: TaskId) {
    CompletedRow(y.store, stop) && Active(y, agent, kind, id)
  }

  /**
    Two timestamps decide it: while a start task and its stop task are both queued for
    an Agent that is not dead, some continuation completes the stop task and still has
    the service active exactly when the start task does not carry the earlier timestamp.
   */
  lemma StopOvertakesIff(before: seq<Step>, agent: AgentId, kind: Service, id: TaskId, stop: TaskId)
    requires var y := Steps(START, before); BothQueued(y, agent, kind, id, stop) && !Dead(y, agent)
    ensures var y := Steps(START, before);
      (exists after :: StoppedYetActive(Steps(y, after), agent, kind, id, stop))
      <==> y.store.rows[stop].createdAt <= y.store.rows[id].createdAt
  {
    hide Inv, Steps, Dead, StoppedYetActive;
    var y := Steps(START, before);
    Reached(before);
    if y.store.rows[stop].createdAt <= y.store.rows[id].createdAt {
      StopMayOvertake(y, agent, kind, id, stop);
    } else {
      StopCannotOvertake(y, agent, kind, id, stop);
    }
  }

  lemma StopMayOvertake(y: System, agent: AgentId, kind: Service, id: TaskId, stop: TaskId)
    requires Inv(y) && BothQueued(y, agent, kind, id, stop) && !Dead(y, agent)
    requires y.store.rows[stop].createdAt <= y.store.rows[id].createdAt
    ensures exists after :: StoppedYetActive(Steps(y, after), agent, kind, id, stop)
  {
    hide Inv, Steps, Active, Dead, CompletedRow;
    var y' := StopFirst(y, agent, kind, id, stop);
    var after :| Steps(y, after) == y';
    assert StoppedYetActive(Steps(y, after), agent, kind, id, stop);
  }

  lemma StopCannotOvertake(y: System, agent: AgentId, kind: Service, id: TaskId, stop: TaskId)
    requires Inv(y) && BothQueued(y, agent, kind, id, stop)
    requires y.store.rows[id].createdAt < y.store.rows[stop].createdAt
    ensures forall after :: !StoppedYetActive(Steps(y, after), agent, kind, id, stop)
  {
    hide Inv, Steps, Active, CompletedRow, InOrder;
    QueuedIsInOrder(y, agent, kind, id, stop);
    forall after ensures !StoppedYetActive(Steps(y, after), agent, kind, id, stop) {
      StepsInv(y, after);
      InOrderSteps(y, after, agent, kind, id, stop);
      if CompletedRow(Steps(y, after).store, stop) { OrderedStopIsFinal(Steps(y, after), agent, kind, id, stop); }
    }
  }
}
