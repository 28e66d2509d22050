/**
  The whole system as one step machine: the task table, every Agent worker, and
  every MySQL or PostgreSQL run the controller is driving. Each `Database`
  method is one atomic step; requests and replies can be lost between steps, a
  controller can restart, and every interleaving is a sequence of steps.
 */
module Protocol {
  import opened Wrappers
  import opened TaskStore
  import opened WorkerState
  import O = Orchestrator

  /**
    `executed` and `stops` are history: the tasks workers ran, in order, and for
    each stop task that succeeded whether its start task had already left the queue.
   */
  datatype System = System(
    store: Store, workers: map<AgentId, Worker>, runs: map<RunId, O.Run>,
    executed: seq<TaskId>, stops: map<TaskId, bool>)

  const START := System(EMPTY, map[], map[], [], map[])

  datatype Step =
    | ForeignCreate(task: NewTask)            // a task of some other suite's run
    | AbortTask(id: TaskId, note: Note)
    | CancelRun(run: RunId)
    | Restart
    | StartRun(run: RunId, flow: O.Flow, target: AgentId, generator: AgentId, secret: Secret)
    | RunEvent(run: RunId, event: O.Event, now: int)
    | Join(agent: AgentId, now: int)
    | Heartbeat(agent: AgentId, now: int)     // answered; a lost one changes nothing
    | Tidy(agent: AgentId, now: int, stopped: set<TaskId>)
    | ClaimTask(agent: AgentId, id: TaskId, delivered: bool, now: int)
    | ReportProgress(agent: AgentId, meter: Meter, result: Option<Doc>)
    | Execute(agent: AgentId, now: int, out: Outcome)
    | Post(agent: AgentId, id: TaskId, arrives: bool, acknowledged: bool, now: int)
    | Halt(agent: AgentId)

  function LoseRun(r: O.Run): O.Run {
    if r.pc.Returned? || r.pc.Raised? then r else r.(pc := O.Lost)
  }

  function WaitedTask(r: O.Run): Option<TaskId> {
    match r.pc
    case Wait(_, t) => Some(t)
    case RescueCleanWait(t) => Some(t)
    case RescueStopWait(t) => Some(t)
    case _ => None
  }

  predicate CompletedRow(s: Store, id: TaskId) { id in s.rows && s.rows[id].status.Completed? }

  /** What the polled row allows a run to observe; a timeout is possible until the row is completed. */
  predicate Observable(s: Store, r: O.Run, e: O.Event) {
    match e
    case Answered(valid) =>
      && WaitedTask(r).Some? && CompletedRow(s, WaitedTask(r).value)
      && valid == (var doc := s.rows[WaitedTask(r).value].result; doc.Some? && doc.value.valid)
    case Broke => WaitedTask(r).Some? && !CompletedRow(s, WaitedTask(r).value)
    case TaskCreated(id) => id !in s.rows
    case _ => true
  }

  predicate AwaitsCreation(r: O.Run) {
    (r.pc.Create? && r.pc.i < |r.plan|) || r.pc.RescueClean? || r.pc.RescueStop?
  }

  function StageToCreate(r: O.Run): O.Stage
    requires AwaitsCreation(r)
  {
    match r.pc
    case Create(i) => r.plan[i]
    case RescueClean => O.StClean
    case _ => O.StStop
  }

  function TaskFor(run: RunId, r: O.Run, id: TaskId, now: int): NewTask
    requires AwaitsCreation(r)
  {
    var stage := StageToCreate(r);
    NewTask(id, run, if O.OnTarget(stage) then r.target else r.generator,
            O.StageWork(r.flow, stage, r.server),
            if O.CarriesSecret(r.flow, stage) then Some(r.secret) else None, now)
  }

  function RunStepped(y: System, run: RunId, e: O.Event, now: int): System
    requires run in y.runs
  {
    var r := y.runs[run];
    var y' := y.(runs := y.runs[run := O.Advance(r, e)]);
    if e.TaskCreated? && AwaitsCreation(r)
    then y'.(store := Insert(y.store, TaskFor(run, r, e.id, now)))
    else y'
  }

  ghost predicate CanStart(y: System, run: RunId, flow: O.Flow, secret: Secret) {
    run !in y.runs && (flow.MySqlFlow? ==> BoundedSecret(secret)) && forall id :: id in y.store.rows ==> y.store.rows[id].run != run
  }

  predicate Working(y: System, agent: AgentId) {
    agent in y.workers && y.workers[agent].phase.Executing? && y.workers[agent].phase.task in y.store.rows
  }

  predicate Ready(y: System, agent: AgentId) { agent in y.workers && y.workers[agent].phase.Idle? }

  /** Whether the start task a stop task names has left the queue of the same agent. */
  predicate StartSettled(s: Store, stop: Row) {
    stop.work.ServiceStop? && stop.work.server in s.rows && !s.rows[stop.work.server].status.Queued?
  }

  function StopsAfter(y: System, id: TaskId, out: Outcome): map<TaskId, bool>
    requires id in y.store.rows
  {
    if y.store.rows[id].work.ServiceStop? && out.Success?
    then y.stops[id := StartSettled(y.store, y.store.rows[id])] else y.stops
  }

  function Executed(y: System, agent: AgentId, now: int, out: Outcome): System
    requires Working(y, agent)
  {
    var w := y.workers[agent];
    var id := w.phase.task;
    y.(workers := y.workers[agent := AfterWork(w, y.store.rows[id].work, now, out)],
       executed := y.executed + [id],
       stops := StopsAfter(y, id, out))
  }

  function Posted(y: System, agent: AgentId, id: TaskId, acknowledged: bool, now: int): System
    requires Ready(y, agent) && id in y.workers[agent].pending
  {
    var w := y.workers[agent];
    var done := w.pending[id];
    var y' := y.(store := Finish(y.store, id, agent, done.status, done.result, done.error));
    if acknowledged && FinishReply(y.store, id, agent)
    then y'.(workers := y.workers[agent := w.(pending := w.pending - {id}, lastContact := now)])
    else y'
  }

  /** One step; a step that is not enabled changes nothing. */
  ghost function Next(y: System, step: Step): System {
    match step
    case ForeignCreate(t) => if t.run in y.runs then y else y.(store := Create(y.store, t))
    case AbortTask(id, note) => y.(store := Abort(y.store, id, note))
    case CancelRun(run) => y.(store := CancelQueued(y.store, run))
    case Restart => y.(store := Recover(y.store), runs := map r | r in y.runs :: LoseRun(y.runs[r]))
    case StartRun(run, flow, target, generator, secret) =>
      if CanStart(y, run, flow, secret)
      then y.(runs := y.runs[run := O.Begin(flow, target, generator, secret)]) else y
    case RunEvent(run, e, now) =>
      if run in y.runs && Observable(y.store, y.runs[run], e) then RunStepped(y, run, e, now) else y
    case Join(agent, now) =>
      if agent in y.workers then y
      else y.(workers := y.workers[agent := Worker(Idle, map[], NO_SERVICES, now)])
    case Heartbeat(agent, now) =>
      if Ready(y, agent) then y.(workers := y.workers[agent := y.workers[agent].(lastContact := now)]) else y
    case Tidy(agent, now, stopped) =>
      if !Ready(y, agent) then y
      else
        var w := y.workers[agent];
        y.(workers := y.workers[agent := w.(
             services := Tidied(w.services, now, ContactExpired(w.lastContact, now), stopped))])
    case ClaimTask(agent, id, delivered, now) =>
      if !Ready(y, agent) || y.workers[agent].pending != map[] || !OldestQueued(y.store, agent, id) then y
      else
        var y' := y.(store := Claim(y.store, agent, id));
        if delivered
        then y'.(workers := y.workers[agent := y.workers[agent].(
                   phase := Executing(id, Delivered(y.store, id)), lastContact := now)])
        else y'
    case ReportProgress(agent, meter, result) =>
      if !Working(y, agent) then y
      else y.(store := Progress(y.store, y.workers[agent].phase.task, agent, meter, result))
    case Execute(agent, now, out) => if Working(y, agent) then Executed(y, agent, now, out) else y
    case Post(agent, id, arrives, acknowledged, now) =>
      if Ready(y, agent) && id in y.workers[agent].pending && arrives
      then Posted(y, agent, id, acknowledged, now) else y
    case Halt(agent) =>
      if agent in y.workers
      then y.(workers := y.workers[agent := y.workers[agent].(
                phase := Halted, pending := map[], services := NO_SERVICES)])
      else y
  }

  ghost function Steps(y: System, steps: seq<Step>): System
    decreases |steps|
  {
    if steps == [] then y else Steps(Next(y, steps[0]), steps[1..])
  }

  lemma StepsOne(y: System, step: Step)
    ensures Steps(y, [step]) == Next(y, step)
  {
    hide Next;
    assert [step][1..] == [];
  }

  lemma StepsTwo(y: System, first: Step, second: Step)
    ensures Steps(y, [first, second]) == Next(Next(y, first), second)
  {
    hide Next;
    assert [first, second][1..] == [second];
    StepsOne(Next(y, first), second);
  }

  lemma {:induction false} StepsConcat(y: System, a: seq<Step>, b: seq<Step>)
    ensures Steps(y, a + b) == Steps(Steps(y, a), b)
    decreases |a|
  {
    hide Next;
    if a == [] {
      assert a + b == b;
    } else {
      assert (a + b)[1..] == a[1..] + b;
      StepsConcat(Next(y, a[0]), a[1..], b);
    }
  }

  lemma {:induction false} StepsPush(y: System, steps: seq<Step>, step: Step)
    ensures Steps(y, steps + [step]) == Next(Steps(y, steps), step)
    decreases |steps|
  {
    hide Next;
    if steps == [] {
      assert steps + [step] == [step];
      StepsOne(y, step);
    } else {
      assert (steps + [step])[1..] == steps[1..] + [step];
      StepsPush(Next(y, steps[0]), steps[1..], step);
    }
  }

  // ---- The invariant -------------------------------------------------------

  /** `agent` was handed `id` and no one else can be. */
  ghost predicate Held(s: Store, agent: AgentId, id: TaskId) {
    Owns(s, agent, id) && s.rows[id].claimed && !s.rows[id].status.Queued?
  }

  ghost predicate PendingOk(s: Store, executed: seq<TaskId>, stops: map<TaskId, bool>, agent: AgentId, w: Worker, id: TaskId)
    requires id in w.pending
  {
    && Held(s, agent, id) && id in executed && w.pending[id].status.Terminal()
    && (w.pending[id].status.Completed? && s.rows[id].work.ServiceStop? ==> id in stops)
  }

  ghost predicate ServiceOk(s: Store, executed: seq<TaskId>, agent: AgentId, kind: Service, id: TaskId) {
    Held(s, agent, id) && s.rows[id].work == ServiceStart(kind) && id in executed
  }

  ghost predicate ExecutingOk(s: Store, executed: seq<TaskId>, agent: AgentId, w: Worker) {
    w.phase.Executing? ==>
      && w.pending == map[] && Held(s, agent, w.phase.task) && w.phase.task !in executed
      && w.phase.secret == IssuedFor(s, w.phase.task)
  }

  ghost predicate WorkerInv(s: Store, executed: seq<TaskId>, stops: map<TaskId, bool>, agent: AgentId, w: Worker) {
    && ExecutingOk(s, executed, agent, w)
    && |w.pending| <= 1
    && (forall id :: id in w.pending ==> PendingOk(s, executed, stops, agent, w, id))
    && w.services.Total() <= 1
    && (forall kind: Service, id :: id in w.services.Of(kind) ==> ServiceOk(s, executed, agent, kind, id))
  }

  ghost predicate WorkersInv(y: System) {
    forall agent :: agent in y.workers ==> WorkerInv(y.store, y.executed, y.stops, agent, y.workers[agent])
  }

  ghost predicate ExecutedInv(y: System) {
    && (forall i, j :: 0 <= i < j < |y.executed| ==> y.executed[i] != y.executed[j])
    && (forall id :: id in y.executed ==> id in y.store.rows && y.store.rows[id].claimed)
  }

  ghost predicate Earned(executed: seq<TaskId>, stops: map<TaskId, bool>, id: TaskId, row: Row) {
    && (row.status.Completed? || row.status.Failed? ==> id in executed)
    && (row.status.Completed? && row.work.ServiceStop? ==> id in stops)
  }

  ghost predicate EarnedInv(y: System) {
    forall id :: id in y.store.rows ==> Earned(y.executed, y.stops, id, y.store.rows[id])
  }

  ghost predicate NotActive(workers: map<AgentId, Worker>, agent: AgentId, kind: Service, id: TaskId) {
    agent in workers ==>
      && !(workers[agent].phase.Executing? && workers[agent].phase.task == id)
      && id !in workers[agent].services.Of(kind)
  }

  ghost predicate StopInv(y: System, stop: TaskId)
    requires stop in y.stops
  {
    && stop in y.store.rows && y.store.rows[stop].claimed && y.store.rows[stop].work.ServiceStop?
    && var row := y.store.rows[stop];
       (y.stops[stop] ==>
          && StartSettled(y.store, row)
          && (y.store.rows[row.work.server].agent == row.agent ==>
                NotActive(y.workers, row.agent, row.work.service, row.work.server)))
       && (!y.stops[stop] && row.work.server in y.store.rows ==> !Ahead(y.store.rows[row.work.server], row))
  }

  ghost predicate StopsInv(y: System) {
    forall stop :: stop in y.stops ==> StopInv(y, stop)
  }

  ghost predicate CoreInv(y: System) {
    && StoreInv(y.store) && QueueDiscipline(y.store)
    && WorkersInv(y) && ExecutedInv(y) && EarnedInv(y) && StopsInv(y)
  }

  /** The row behind the `i`-th task a run created. */
  ghost predicate TaskBacked(s: Store, run: RunId, r: O.Run, i: nat)
    requires i < |r.tasks|
  {
    var t := r.tasks[i];
    && t.id in s.rows
    && s.rows[t.id].run == run
    && s.rows[t.id].agent == (if O.OnTarget(t.stage) then r.target else r.generator)
    && s.rows[t.id].work == O.StageWork(r.flow, t.stage, r.server)
    && IssuedFor(s, t.id) == (if O.CarriesSecret(r.flow, t.stage) then Some(r.secret) else None)
    && (i > 0 ==> r.tasks[0].id in s.rows && s.rows[r.tasks[0].id].order < s.rows[t.id].order)
  }

  /** The row behind a completed step; a step that needs evidence has it. */
  predicate StepBacked(s: Store, t: O.Created) {
    && CompletedRow(s, t.id)
    && (t.stage.StPrepare? || t.stage.StMeasure? || t.stage.StBaseline? || t.stage.StRecovery? ==>
         s.rows[t.id].result.Some? && s.rows[t.id].result.value.valid)
  }

  function TaskIds(r: O.Run): set<TaskId> { set i | 0 <= i < |r.tasks| :: r.tasks[i].id }

  ghost predicate RunStoreInv(s: Store, stops: map<TaskId, bool>, run: RunId, r: O.Run) {
    && (forall i :: 0 <= i < |r.tasks| ==> TaskBacked(s, run, r, i))
    && (forall id :: id in s.rows && s.rows[id].run == run ==> id in TaskIds(r))
    && (O.Normal(r.pc) ==> forall i :: 0 <= i < r.steps && i < |r.tasks| ==> StepBacked(s, r.tasks[i]))
    && (O.Normal(r.pc) && O.StopMade(r.tasks) ==>
          var stop := r.tasks[|r.tasks| - 1].id; stop in stops ==> stops[stop])
    && (r.flow.MySqlFlow? ==> BoundedSecret(r.secret))
  }

  ghost predicate RunsInv(y: System) {
    forall run :: run in y.runs ==>
      (!y.runs[run].pc.Lost? ==> O.RunInv(y.runs[run])) && RunStoreInv(y.store, y.stops, run, y.runs[run])
  }

  ghost predicate Inv(y: System) { CoreInv(y) && RunsInv(y) }
}
