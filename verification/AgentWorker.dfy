/**
  `AgentWorker`: the maps it updates in place, its deadline sweep, and one
  iteration of its loop. The iteration is proved to be a run of the protocol
  machine, so every theorem about reachable states applies to it.
 */
module Agent {
  import opened Wrappers
  import opened TaskStore
  import opened TaskDatabase
  import opened WorkerState
  import opened Protocol
  import opened ProtocolProof
  import opened ProtocolTheorems
  import O = Orchestrator

  /** A step of someone else while the worker is busy, with the `Database` call it makes. */
  datatype Meanwhile = Meanwhile(step: Step, call: Option<Op>)

  /**
    What the surroundings do during one iteration: lost messages, outcomes, and all
    that happens while the claimed task runs, which may depend on the task.
   */
  datatype Surroundings = Surroundings(
    now: int, heartbeatAnswered: bool, claimDelivered: bool, outcome: Outcome, during: TaskId -> seq<Meanwhile>,
    postArrives: bool, postAcknowledged: bool)

  datatype Handled = Worked | NothingToDo | Unreachable

  /** The steps of `once` itself, and its death; reporting progress is left to the surroundings. */
  predicate Own(step: Step, agent: AgentId) {
    (step.Tidy? || step.Heartbeat? || step.ClaimTask? || step.Execute? || step.Post? || step.Halt?) && step.agent == agent
  }

  /** Any step but the worker's own; where another Agent claims, the queue's head is unique. */
  ghost predicate Fits(y: System, agent: AgentId, m: Meanwhile) {
    && !Own(m.step, agent) && m.call == StoreCall(y, m.step)
    && (m.call.Some? ==> UntiedClaim(y.store, m.call.value))
  }

  ghost predicate UntiedClaim(s: Store, op: Op) {
    op.OpClaim? ==> forall id :: OldestQueued(s, op.agent, id) ==> id == op.id
  }

  ghost predicate AllFit(y: System, agent: AgentId, ms: seq<Meanwhile>)
    decreases |ms|
  {
    ms == [] || (Fits(y, agent, ms[0]) && AllFit(Next(y, ms[0].step), agent, ms[1..]))
  }

  function StepsOf(ms: seq<Meanwhile>): (steps: seq<Step>)
    ensures |steps| == |ms| && forall i :: 0 <= i < |ms| ==> steps[i] == ms[i].step
  {
    seq(|ms|, i requires 0 <= i < |ms| => ms[i].step)
  }

  function Everything(y: System, agent: AgentId): set<TaskId>
    requires agent in y.workers
  {
    var sv := y.workers[agent].services;
    sv.database.Keys + sv.web.Keys + sv.redis.Keys + sv.mysql.Keys
  }

  /** Whichever oldest task the swept worker claims, what happens meanwhile can happen. */
  ghost predicate Plausible(swept: System, agent: AgentId, env: Surroundings) {
    forall id :: OldestQueued(swept.store, agent, id) && env.heartbeatAnswered && env.claimDelivered ==>
      AllFit(Next(Next(swept, Heartbeat(agent, env.now)), ClaimTask(agent, id, true, env.now)), agent, env.during(id))
  }

  /**
    The steps of one iteration from `y`: sweep; then re-post the completion that is
    still pending, or send a heartbeat and, if it is answered, claim the oldest queued
    task, run it and post its completion.
   */
  ghost predicate IsIteration(y: System, agent: AgentId, env: Surroundings, steps: seq<Step>)
    requires agent in y.workers
  {
    var pending := y.workers[agent].pending;
    && |steps| >= 1 && steps[0] == Tidy(agent, env.now, Everything(y, agent))
    && if pending != map[] then
         && |steps| == 2 && steps[1].Post? && steps[1].id in pending
         && steps[1] == Post(agent, steps[1].id, env.postArrives, env.postAcknowledged, env.now)
       else IsFetch(y.store, agent, env, steps[1..])
  }

  ghost predicate IsFetch(s: Store, agent: AgentId, env: Surroundings, steps: seq<Step>) {
    if !env.heartbeatAnswered then steps == []
    else
      && |steps| >= 2 && steps[0] == Heartbeat(agent, env.now) && steps[1].ClaimTask?
      && steps[1] == ClaimTask(agent, steps[1].id, env.claimDelivered, env.now)
      && ((exists id :: QueuedFor(s, agent, id)) ==> OldestQueued(s, agent, steps[1].id))
      && steps[2..] == if env.claimDelivered && exists id :: QueuedFor(s, agent, id)
                       then WorkSteps(agent, env, steps[1].id) else []
  }

  function WorkSteps(agent: AgentId, env: Surroundings, id: TaskId): seq<Step> {
    StepsOf(env.during(id)) + [Execute(agent, env.now, env.outcome)]
    + if env.outcome.Crash? then [] else [Post(agent, id, env.postArrives, env.postAcknowledged, env.now)]
  }

  /** The call of another thread or Agent. */
  method Call(db: Database, op: Op)
    requires db.Valid() && UntiedClaim(db.View(), op)
    modifies db
    ensures db.Valid() && db.View() == Apply(old(db.View()), op)
  {
    hide StoreInv, Apply, Create, Finish, Progress, Abort, CancelQueued, Recover, OldestQueued, CreateError, FinishReply,
         ProgressReply, AbortReply, QueuedOfRun;
    ApplyIs(db.View(), op);
    match op {
      case OpCreate(t) => var _ := db.CreateAgentTask(t);
      case OpClaim(agent, id) =>
        ghost var before := db.View();
        NonEmptyQueueIsClaimable(before, agent);
        var _ := db.ClaimAgentTask(agent);
      case OpFinish(id, agent, status, result, error) => var _ := db.FinishAgentTask(id, agent, status, result, error);
      case OpProgress(id, agent, meter, result) => var _ := db.UpdateAgentTaskProgress(id, agent, meter, result);
      case OpAbort(id, note) => var _ := db.AbortAgentTask(id, note);
      case OpCancelQueued(run) => var _ := db.CancelQueuedRunTasks(run);
      case OpRecover => db.RecoverIncompleteRuns();
    }
  }

  class AgentWorker {
    const agent: AgentId
    var pending: map<TaskId, Completion>
    var activeDatabaseServers: map<TaskId, int>
    var activeWebServers: map<TaskId, int>
    var activeRedisServers: map<TaskId, int>
    var activeMySqlServers: map<TaskId, int>
    var lastControllerContact: int

    ghost function ServicesView(): Services
      reads this
    {
      Services(activeDatabaseServers, activeWebServers, activeRedisServers, activeMySqlServers)
    }

    /** The worker between two iterations. */
    ghost function View(): Worker
      reads this
    {
      Worker(Idle, pending, ServicesView(), lastControllerContact)
    }

    constructor (agent: AgentId, now: int)
      ensures this.agent == agent && View() == Worker(Idle, map[], NO_SERVICES, now)
    {
      this.agent, pending, lastControllerContact := agent, map[], now;
      activeDatabaseServers, activeWebServers, activeRedisServers, activeMySqlServers := map[], map[], map[], map[];
    }

    /** One of the loops of `_cleanup_expired`: stop what is past its deadline, or all of it when contact is lost. */
    static method Sweep(entries: map<TaskId, int>, now: int, lost: bool) returns (kept: map<TaskId, int>)
      ensures kept == Surviving(entries, now, lost, entries.Keys)
      ensures lost ==> kept == map[]
      ensures forall id :: id in kept ==> id in entries && kept[id] == entries[id] && now < kept[id]
      ensures forall id :: id in entries && id !in kept ==> lost || entries[id] <= now
    {
      kept := entries;
      var left := entries.Keys;
      while left != {}
        invariant left <= entries.Keys
        invariant kept == Surviving(entries, now, lost, entries.Keys - left)
      {
        var id :| id in left;
        left := left - {id};
        if now < entries[id] && !lost { continue; }
        kept := kept - {id};
      }
      assert entries.Keys - left == entries.Keys;
    }

    /** Afterwards every remaining service is within its deadline, and none remains once contact expired. */
    method CleanupExpired(now: int)
      modifies this
      ensures View() == old(View()).(services :=
                Tidied(old(ServicesView()), now, ContactExpired(old(lastControllerContact), now), old(AllIds())))
      ensures forall kind: Service, id :: id in ServicesView().Of(kind) ==>
                && id in old(ServicesView()).Of(kind) && now < ServicesView().Of(kind)[id]
                && now - lastControllerContact <= 20
      ensures forall kind: Service, id :: id in old(ServicesView()).Of(kind) && id !in ServicesView().Of(kind) ==>
                old(ServicesView()).Of(kind)[id] <= now || now - lastControllerContact > 20
    {
      hide Surviving, Tidied, Services.Of, ContactExpired;
      ghost var before, all := ServicesView(), AllIds();
      SweptServices(before, now, lastControllerContact, all);
      SweepMaps(now);
    }

    /** The four loops, one map after the other. */
    method SweepMaps(now: int)
      modifies this
      ensures View() == old(View()).(services :=
                Tidied(old(ServicesView()), now, ContactExpired(old(lastControllerContact), now), old(AllIds())))
    {
      hide Surviving;
      var lost := now - lastControllerContact > CONTACT_TIMEOUT;
      ghost var all := AllIds();
      SurvivingNarrow(activeDatabaseServers, now, lost, all);
      SurvivingNarrow(activeWebServers, now, lost, all);
      SurvivingNarrow(activeRedisServers, now, lost, all);
      SurvivingNarrow(activeMySqlServers, now, lost, all);
      activeDatabaseServers := Sweep(activeDatabaseServers, now, lost);
      activeWebServers := Sweep(activeWebServers, now, lost);
      activeRedisServers := Sweep(activeRedisServers, now, lost);
      activeMySqlServers := Sweep(activeMySqlServers, now, lost);
    }

    ghost function AllIds(): set<TaskId>
      reads this
    {
      activeDatabaseServers.Keys + activeWebServers.Keys + activeRedisServers.Keys + activeMySqlServers.Keys
    }

    predicate Serves(kind: Service, id: TaskId)
      reads this
    {
      match kind
      case Postgres => id in activeDatabaseServers
      case Web => id in activeWebServers
      case Redis => id in activeRedisServers
      case MySql => id in activeMySqlServers
    }

    method StartService(kind: Service, id: TaskId, deadline: int) returns (started: bool)
      modifies this
      ensures started <==> old(ServicesView()).NoneActive()
      ensures View() == if started
              then old(View()).(services := old(ServicesView()).With(kind, old(ServicesView()).Of(kind)[id := deadline]))
              else old(View())
    {
      if activeDatabaseServers != map[] || activeWebServers != map[] || activeRedisServers != map[]
         || activeMySqlServers != map[] {
        return false;
      }
      match kind {
        case Postgres => activeDatabaseServers := activeDatabaseServers[id := deadline];
        case Web => activeWebServers := activeWebServers[id := deadline];
        case Redis => activeRedisServers := activeRedisServers[id := deadline];
        case MySql => activeMySqlServers := activeMySqlServers[id := deadline];
      }
      started := true;
    }

    /** A service that is not there is nothing to stop; otherwise ending the process or removing its files may break. */
    method StopService(kind: Service, server: TaskId, breaks: bool) returns (stopped: bool)
      modifies this
      ensures stopped <==> !breaks || server !in old(ServicesView()).Of(kind)
      ensures View() == if stopped
              then old(View()).(services := old(ServicesView()).With(kind, old(ServicesView()).Of(kind) - {server}))
              else old(View())
    {
      stopped := !breaks || !Serves(kind, server);
      if !stopped { return; }
      match kind {
        case Postgres => activeDatabaseServers := activeDatabaseServers - {server};
        case Web => activeWebServers := activeWebServers - {server};
        case Redis => activeRedisServers := activeRedisServers - {server};
        case MySql => activeMySqlServers := activeMySqlServers - {server};
      }
    }

    /** `_execute` with the `except` clauses of `once`: what the handler did, and the completion to report. */
    method Perform(id: TaskId, work: Work, now: int, out: Outcome) returns (done: Option<Completion>)
      modifies this
      ensures done == CompletionOf(old(ServicesView()), work, out)
      ensures View() == old(View()).(services := ServicesAfter(old(ServicesView()), id, work, now, out))
    {
      hide Services.With, Services.Of, Services.NoneActive;
      match work {
        case ServiceStart(kind) =>
          if out.Success? {
            var started := StartService(kind, id, now + out.lifetime);
            return if started then Some(Completion(Completed, out.result, None))
                   else Some(Completion(Failed, None, Some(Reported(0))));
          }
        case ServiceStop(kind, server) =>
          NothingRemoved(ServicesView(), kind, server);
          var _ := StopService(kind, server, !(out.Success? || (out.Crash? && out.removed)));
        case _ =>
      }
      done := match out
        case Success(result, _) => Some(Completion(Completed, result, None))
        case Failure(cancelled, result, error) =>
          Some(Completion(if cancelled then Cancelled else Failed, result, error))
        case Crash(_) => None;
    }

    // ---- once ------------------------------------------------------------------

    /** The class, the database and the machine state agree; `phase` is where `once` stands. */
    ghost predicate InStep(db: Database, y: System, phase: Phase)
      reads this, db
    {
      && db.Valid() && Inv(y) && y.store == db.View()
      && agent in y.workers && y.workers[agent] == View().(phase := phase)
    }

    /** One post of a pending completion; whether it is acknowledged is up to the network. */
    method PostCompletion(db: Database, id: TaskId, arrives: bool, acknowledged: bool, now: int, ghost y: System)
      returns (ok: bool, ghost y': System)
      requires InStep(db, y, Idle) && id in pending
      modifies this, db
      ensures InStep(db, y', Idle) && y' == Next(y, Post(agent, id, arrives, acknowledged, now))
      ensures ok <==> arrives && acknowledged
      ensures ok ==> pending == map[]
    {
      hide Inv, StoreInv, Finish;
      y' := Next(y, Post(agent, id, arrives, acknowledged, now));
      PendingFacts(y, agent, id, arrives, acknowledged, now);
      ok := false;
      if arrives {
        var reply := db.FinishAgentTask(id, agent, pending[id].status, pending[id].result, pending[id].error);
        if acknowledged && reply == Ok(true) {
          pending := pending - {id};
          lastControllerContact := now;
          ok := true;
        }
      }
    }

    /** Claims the next task; the reply may be lost, and the task with it. */
    method ClaimNext(db: Database, delivered: bool, now: int, ghost y: System)
      returns (task: Option<Claimed>, ghost step: Step, ghost y': System)
      requires InStep(db, y, Idle) && pending == map[]
      modifies this, db
      ensures y' == Next(y, step) && step.ClaimTask? && step == ClaimTask(agent, step.id, delivered, now)
      ensures y'.runs == y.runs
      ensures (exists id :: QueuedFor(y.store, agent, id)) ==> OldestQueued(y.store, agent, step.id)
      ensures task.Some? <==> delivered && exists id :: QueuedFor(y.store, agent, id)
      ensures task.Some? ==>
        && task.value.id == step.id
        && delivered && task.value.id in y'.store.rows && task.value.row.work == y'.store.rows[task.value.id].work
        && InStep(db, y', Executing(task.value.id, task.value.secret))
      ensures task.None? ==> InStep(db, y', Idle)
      ensures pending == map[]
    {
      hide Inv, StoreInv, OldestQueued, Claim;
      var answer := db.ClaimAgentTask(agent);
      if answer.None? {
        step := ClaimTask(agent, 0, delivered, now);
        EmptyQueue(y, agent);
        y' := y;
        return None, step, y';
      }
      step := ClaimTask(agent, answer.value.id, delivered, now);
      y' := Next(y, step);
      NextInv(y, step);
      task := None;
      if delivered {
        lastControllerContact := now;
        task := answer;
      }
    }

    /** One step of the surroundings while this worker is busy. */
    method Outside(db: Database, m: Meanwhile, phase: Phase, ghost y: System) returns (ghost y': System)
      requires InStep(db, y, phase) && Fits(y, agent, m)
      modifies db
      ensures InStep(db, y', phase) && y' == Next(y, m.step)
      ensures forall id :: id in y.store.rows ==> id in y'.store.rows && y'.store.rows[id].work == y.store.rows[id].work
    {
      hide Inv, StoreInv, Next, StoreCall, Apply, UntiedClaim;
      y' := Next(y, m.step);
      NextInv(y, m.step);
      OneCall(y, m.step);
      NextEvolves(y, m.step);
      LeavesWorker(y, m.step, agent);
      if m.call.Some? { Call(db, m.call.value); }
    }

    method RunHandler(db: Database, id: TaskId, secret: Option<Secret>, work: Work, now: int, out: Outcome, ghost y: System)
      returns (done: bool, ghost y': System)
      requires InStep(db, y, Executing(id, secret)) && pending == map[]
      requires id in y.store.rows && y.store.rows[id].work == work
      modifies this
      ensures InStep(db, y', Idle) && y' == Next(y, Execute(agent, now, out))
      ensures done <==> !out.Crash?
      ensures done ==> pending.Keys == {id}
    {
      hide Inv, StoreInv, ServicesAfter, StopsAfter;
      y' := Next(y, Execute(agent, now, out));
      NextInv(y, Execute(agent, now, out));
      var completion := Perform(id, work, now, out);
      done := completion.Some?;
      if done { pending := pending[id := completion.value]; }
    }

    /** Everything that happens while the handler of task `id` runs. */
    method BeBusy(db: Database, phase: Phase, ms: seq<Meanwhile>, id: TaskId, ghost y: System)
      returns (ghost cur: System, ghost tail: seq<Step>)
      requires InStep(db, y, phase) && AllFit(y, agent, ms) && id in y.store.rows
      modifies db
      ensures InStep(db, cur, phase) && cur == Steps(y, tail) && tail == StepsOf(ms)
      ensures id in cur.store.rows && cur.store.rows[id].work == y.store.rows[id].work
    {
      hide Inv, StoreInv, Next, Fits, Steps;
      cur, tail := y, [];
      StepsNone(y);
      var i := 0;
      while i < |ms|
        invariant 0 <= i <= |ms| && tail == StepsOf(ms[..i])
        invariant InStep(db, cur, phase) && cur == Steps(y, tail) && AllFit(cur, agent, ms[i..])
        invariant id in cur.store.rows && cur.store.rows[id].work == y.store.rows[id].work
      {
        assert ms[i..][0] == ms[i] && ms[i..][1..] == ms[i + 1..];
        cur := Outside(db, ms[i], phase, cur);
        StepsPush(y, tail, ms[i].step);
        assert StepsOf(ms[..i + 1]) == tail + [ms[i].step];
        tail := tail + [ms[i].step];
        i := i + 1;
      }
      assert ms[..i] == ms;
    }

    /** From a claimed task to the post of its completion; the tail of an iteration. */
    method WorkOn(db: Database, task: Claimed, env: Surroundings, ghost y: System)
      returns (ok: bool, ghost tail: seq<Step>)
      requires InStep(db, y, Executing(task.id, task.secret)) && pending == map[]
      requires task.id in y.store.rows && y.store.rows[task.id].work == task.row.work
      requires AllFit(y, agent, env.during(task.id))
      modifies this, db
      ensures InStep(db, Steps(y, tail), Idle) && tail == WorkSteps(agent, env, task.id)
      ensures ok ==> pending == map[]
    {
      hide Inv, StoreInv, Next, Fits, Steps;
      ghost var cur;
      cur, tail := BeBusy(db, Executing(task.id, task.secret), env.during(task.id), task.id, y);
      var done;
      done, cur := RunHandler(db, task.id, task.secret, task.row.work, env.now, env.outcome, cur);
      StepsPush(y, tail, Execute(agent, env.now, env.outcome));
      tail := tail + [Execute(agent, env.now, env.outcome)];
      ok := false;
      if done {
        ok, cur := PostCompletion(db, task.id, env.postArrives, env.postAcknowledged, env.now, cur);
        StepsPush(y, tail, Post(agent, task.id, env.postArrives, env.postAcknowledged, env.now));
        tail := tail + [Post(agent, task.id, env.postArrives, env.postAcknowledged, env.now)];
      }
    }

    /** The sweep that opens an iteration, as a step. */
    method SweepFirst(db: Database, now: int, ghost y: System) returns (ghost y': System)
      requires InStep(db, y, Idle)
      modifies this
      ensures InStep(db, y', Idle) && y' == Next(y, Tidy(agent, now, old(AllIds())))
      ensures y'.store == y.store && y'.runs == y.runs && pending == old(pending)
    {
      hide Inv, StoreInv, Next, Tidied;
      y' := Next(y, Tidy(agent, now, AllIds()));
      NextInv(y, Tidy(agent, now, AllIds()));
      TidyIs(y, agent, now, AllIds());
      CleanupExpired(now);
    }

    /** An answered heartbeat renews the contact. */
    method Beat(db: Database, now: int, ghost y: System) returns (ghost y': System)
      requires InStep(db, y, Idle)
      modifies this`lastControllerContact
      ensures InStep(db, y', Idle) && y' == Next(y, Heartbeat(agent, now)) && y'.store == y.store
    {
      hide Inv, StoreInv;
      y' := Next(y, Heartbeat(agent, now));
      NextInv(y, Heartbeat(agent, now));
      lastControllerContact := now;
    }

    /** The part of `once` that asks for a task. */
    method Fetch(db: Database, env: Surroundings, ghost y: System) returns (handled: Handled, ghost trace: seq<Step>)
      requires InStep(db, y, Idle) && pending == map[] && Plausible(y, agent, env)
      modifies this, db
      ensures InStep(db, Steps(y, trace), Idle) && IsFetch(y.store, agent, env, trace)
      ensures !handled.Unreachable? ==> pending == map[]
    {
      hide Inv, StoreInv, Next, QueuedFor, OldestQueued, Steps, AllFit, WorkSteps;
      if !env.heartbeatAnswered {
        StepsNone(y);
        return Unreachable, [];
      }
      ghost var beat := Heartbeat(agent, env.now);
      ghost var cur := Beat(db, env.now, y);
      var task;
      ghost var step;
      task, step, cur := ClaimNext(db, env.claimDelivered, env.now, cur);
      StepsTwo(y, beat, step);
      trace := [beat, step];
      if task.None? { return if env.claimDelivered then NothingToDo else Unreachable, trace; }
      ghost var tail;
      var ok;
      ok, tail := WorkOn(db, task.value, env, cur);
      StepsConcat(y, trace, tail);
      assert ([beat, step] + tail)[2..] == tail;
      trace := trace + tail;
      handled := if ok then Worked else Unreachable;
    }

    /**
      One iteration of `once`. Whatever is lost, refused or cancelled meanwhile,
      it is a run of the protocol machine that ends in step with it.
     */
    method Once(db: Database, env: Surroundings, ghost y: System) returns (handled: Handled, ghost trace: seq<Step>)
      requires InStep(db, y, Idle)
      requires pending == map[] ==> Plausible(Next(y, Tidy(agent, env.now, Everything(y, agent))), agent, env)
      modifies this, db
      ensures InStep(db, Steps(y, trace), Idle)
      ensures IsIteration(y, agent, env, trace)
      ensures old(pending) != map[] ==> (handled.Worked? <==> env.postArrives && env.postAcknowledged)
      ensures handled.Worked? || handled.NothingToDo? ==> pending == map[]
    {
      hide Inv, StoreInv, Next, Steps, IsFetch, Plausible;
      ghost var sweep := Tidy(agent, env.now, AllIds());
      ghost var cur := SweepFirst(db, env.now, y);
      StepsOne(y, sweep);
      if pending != map[] {
        var id :| id in pending;
        var ok;
        ok, cur := PostCompletion(db, id, env.postArrives, env.postAcknowledged, env.now, cur);
        trace := [sweep, Post(agent, id, env.postArrives, env.postAcknowledged, env.now)];
        StepsTwo(y, trace[0], trace[1]);
        return if ok then Worked else Unreachable, trace;
      }
      ghost var tail;
      handled, tail := Fetch(db, env, cur);
      StepsConcat(y, [sweep], tail);
      assert ([sweep] + tail)[1..] == tail;
      trace := [sweep] + tail;
    }
  }

  // ---- Facts about single steps --------------------------------------------------

  lemma PendingFacts(y: System, agent: AgentId, id: TaskId, arrives: bool, acknowledged: bool, now: int)
    requires Inv(y) && Ready(y, agent) && id in y.workers[agent].pending
    ensures FinishReply(y.store, id, agent) && y.workers[agent].pending[id].status.Terminal()
    ensures y.workers[agent].pending - {id} == map[]
    ensures Inv(Next(y, Post(agent, id, arrives, acknowledged, now)))
  {
    hide Inv, Next;
    PendingOf(y, agent, id);
    PendingCount(y, agent);
    OnlyPending(y.workers[agent].pending, id);
    NextInv(y, Post(agent, id, arrives, acknowledged, now));
  }

  lemma PendingCount(y: System, agent: AgentId)
    requires Inv(y) && agent in y.workers
    ensures |y.workers[agent].pending| <= 1
  {
    hide Inv;
    WorkerOf(y, agent);
  }

  lemma EmptyQueue(y: System, agent: AgentId)
    requires forall id :: !QueuedFor(y.store, agent, id)
    ensures forall delivered, now, id :: Next(y, ClaimTask(agent, id, delivered, now)) == y
  {
  }

  lemma LeavesWorker(y: System, step: Step, agent: AgentId)
    requires !Own(step, agent) && agent in y.workers
    ensures agent in Next(y, step).workers && Next(y, step).workers[agent] == y.workers[agent]
  {
    hide Create, Claim, Finish, FinishReply, Progress, Abort, CancelQueued, Recover, AfterWork, StopsAfter, TaskFor,
         AwaitsCreation, Observable, Tidied, OldestQueued, O.Advance, BoundedSecret;
  }

  lemma NothingRemoved(sv: Services, kind: Service, server: TaskId)
    ensures server !in sv.Of(kind) ==> sv.With(kind, sv.Of(kind) - {server}) == sv
  {
    if server !in sv.Of(kind) { assert sv.Of(kind) - {server} == sv.Of(kind); }
  }

  lemma TidiedOf(sv: Services, now: int, lost: bool, all: set<TaskId>, kind: Service)
    ensures Tidied(sv, now, lost, all).Of(kind) == Surviving(sv.Of(kind), now, lost, all)
    ensures sv.Of(kind).Keys <= sv.database.Keys + sv.web.Keys + sv.redis.Keys + sv.mysql.Keys
  {
    hide Surviving;
  }

  /** What is left is within its deadline and in contact; what is gone was not. */
  lemma SweptServices(sv: Services, now: int, lastContact: int, all: set<TaskId>)
    requires all == sv.database.Keys + sv.web.Keys + sv.redis.Keys + sv.mysql.Keys
    ensures var after := Tidied(sv, now, ContactExpired(lastContact, now), all);
      && (forall kind: Service, id :: id in after.Of(kind) ==>
            id in sv.Of(kind) && now < after.Of(kind)[id] && now - lastContact <= 20)
      && (forall kind: Service, id :: id in sv.Of(kind) && id !in after.Of(kind) ==>
            sv.Of(kind)[id] <= now || now - lastContact > 20)
  {
    hide Services.Of, Tidied;
    var lost := ContactExpired(lastContact, now);
    forall kind: Service
      ensures Tidied(sv, now, lost, all).Of(kind) == Surviving(sv.Of(kind), now, lost, all)
      ensures sv.Of(kind).Keys <= all
    {
      TidiedOf(sv, now, lost, all, kind);
    }
  }

  lemma StepsNone(y: System)
    ensures Steps(y, []) == y
  {
  }

  lemma TidyIs(y: System, agent: AgentId, now: int, stopped: set<TaskId>)
    requires Ready(y, agent)
    ensures var w := y.workers[agent];
            Next(y, Tidy(agent, now, stopped)) == y.(workers := y.workers[agent := w.(
              services := Tidied(w.services, now, ContactExpired(w.lastContact, now), stopped))])
  {
  }
}
