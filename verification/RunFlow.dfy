/**
  `run_mysql` and `run_database` as they are written: flags, loops, a `try`
  body and an `except` block. The environment decides every wait and every
  cancellation point. The `machine` field follows along as history; each
  primitive may only be used where Orchestrator.dfy allows it, so the methods
  are proved to take exactly the steps of that machine.
 */
module RunFlow {
  import opened Wrappers
  import opened TaskStore
  import O = Orchestrator

  datatype Waited = Finished(valid: bool) | Broken | Stopped

  function Min(a: nat, b: nat): nat { if a <= b then a else b }

  /** The part of a run the imperative code keeps in its local variables. */
  datatype Locals = Locals(
    server: Option<TaskId>, prepared: bool, clean: bool, stop: bool, steps: nat, measured: nat)

  function LocalsOf(r: O.Run): Locals {
    Locals(r.server, r.prepared, r.cleanScheduled, r.stopScheduled, r.steps, r.measured)
  }

  /** Where the `except` block starts, and with which flags raised. */
  function CaughtPc(l: Locals): O.Pc {
    if l.prepared && !l.clean then O.RescueClean
    else if l.server.Some? && !l.stop then O.RescueStop else O.Raised
  }

  function CaughtLocals(l: Locals): Locals {
    if CaughtPc(l).RescueClean? then l.(clean := true)
    else if CaughtPc(l).RescueStop? then l.(stop := true) else l
  }

  ghost predicate CaughtFrom(r: O.Run, l: Locals) {
    r.pc == CaughtPc(l) && LocalsOf(r) == CaughtLocals(l)
  }

  function PassedPc(r: O.Run): O.Pc
    requires r.pc.Report? || r.pc.Step?
  {
    if r.pc.Report? then O.Create(r.pc.i) else O.EntryPoint(r.flow, r.plan, r.pc.i + 1)
  }

  function LoggedLocals(l: Locals, stage: O.Stage, id: TaskId): Locals {
    l.(server := if stage.StStart? then Some(id) else l.server,
       clean := l.clean || stage.StClean?, stop := l.stop || stage.StStop?)
  }

  /** The exception handler keeps the step count. */
  lemma CaughtSteps(r: O.Run, l: Locals)
    requires CaughtFrom(r, l)
    ensures r.steps == l.steps
  {
  }

  lemma HandledIsCaught(r: O.Run)
    ensures CaughtFrom(O.Handle(r), LocalsOf(r))
  {
  }

  lemma MySqlEnd(jobs: nat)
    ensures var plan := O.Plan(O.MySqlFlow(jobs));
      |plan| == jobs + 4 && plan[jobs + 2] == O.StClean && plan[jobs + 3] == O.StStop
  {
    O.PlanAt(O.MySqlFlow(jobs));
  }

  function StepDone(l: Locals, stage: O.Stage): Locals {
    l.(steps := l.steps + 1, prepared := l.prepared || stage.StPrepare?,
       measured := if stage.StMeasure? then l.measured + 1 else l.measured)
  }

  /** What the outcome of a wait does to the machine. */
  lemma WaitOutcome(r: O.Run, e: O.Event)
    requires r.pc.Wait? && r.pc.i < |r.plan|
    requires e.Answered? || e.Broke? || (e.Interrupt? && O.Interruptible(r.plan[r.pc.i]))
    ensures if e.Answered? && (e.valid || !O.Inspected(r.plan[r.pc.i]))
            then O.Advance(r, e).pc == O.Step(r.pc.i) && LocalsOf(O.Advance(r, e)) == StepDone(LocalsOf(r), r.plan[r.pc.i])
            else CaughtFrom(O.Advance(r, e), LocalsOf(r))
  {
    HandledIsCaught(r);
    hide CaughtFrom, O.Handle, O.Inspected, O.Interruptible;
  }

  class RunDriver {
    var serverTask: Option<TaskId>
    var prepared: bool
    var clientCleanupScheduled: bool
    var serviceCleanupScheduled: bool
    var completedSteps: nat
    var measurements: nat
    const totalSteps: nat
    ghost const first: O.Run
    ghost var machine: O.Run
    ghost var log: seq<O.Event>

    ghost predicate Valid()
      reads this
    {
      && O.RunInv(machine) && machine == O.Replay(first, log)
      && machine.flow == first.flow && machine.plan == first.plan == O.Plan(first.flow)
      && totalSteps == O.TotalSteps(first.flow) && !first.prepared
    }

    ghost function Variables(): Locals
      reads this
    {
      Locals(serverTask, prepared, clientCleanupScheduled, serviceCleanupScheduled, completedSteps, measurements)
    }

    /** About to begin stage `i`, or past the last one; the variables agree with the machine. */
    ghost predicate At(i: nat)
      reads this
    {
      && Valid() && LocalsOf(machine) == Variables() && completedSteps == i
      && i <= |machine.plan| && machine.pc == O.EntryPoint(machine.flow, machine.plan, i)
    }

    /** At the start of the `except` block. */
    ghost predicate Caught()
      reads this
    {
      Valid() && CaughtFrom(machine, Variables().(steps := machine.steps))
    }

    constructor (flow: O.Flow, ghost target: AgentId, ghost generator: AgentId, ghost secret: Secret)
      ensures first == O.Begin(flow, target, generator, secret) && At(0) && log == []
    {
      serverTask, prepared, clientCleanupScheduled, serviceCleanupScheduled := None, false, false, false;
      completedSteps, measurements, totalSteps := 0, 0, O.TotalSteps(flow);
      first, machine := O.Begin(flow, target, generator, secret), O.Begin(flow, target, generator, secret);
      log := [];
      new;
      O.BeginInv(flow, target, generator, secret);
    }

    /** The machine's flag is the history: the prepare task came back with valid evidence. */
    lemma Confirmed()
      requires Valid()
      ensures machine.prepared <==> O.EverPrepared(first, log)
    {
      hide O.RunInv, O.Plan;
      O.PreparedIffConfirmed(first, log);
    }

    ghost method Note(e: O.Event)
      requires Valid()
      modifies this`machine, this`log
      ensures Valid() && machine == O.Advance(old(machine), e) && log == old(log) + [e]
    {
      hide O.RunInv, O.Advance;
      O.AdvanceInv(machine, e);
      O.AdvanceKeepsPlan(machine, e);
      ReplayPush(first, log, e);
      machine := O.Advance(machine, e);
      log := log + [e];
    }

    /** `context.report`: the progress callback, preceded by a cancellation and timeout check. */
    method Report() returns (passed: bool)
      requires Valid() && (machine.pc.Report? || machine.pc.Step?)
      modifies this`machine, this`log
      ensures Valid()
      ensures passed ==> machine.pc == PassedPc(old(machine)) && LocalsOf(machine) == LocalsOf(old(machine))
      ensures !passed ==> CaughtFrom(machine, LocalsOf(old(machine)))
    {
      hide O.RunInv;
      passed := *;
      Note(if passed then O.Go else O.Interrupt);
    }

    /** `create_task`; `claimed` is the payload's `run_completed_steps`. */
    method CreateTask(stage: O.Stage, claimed: Option<nat>) returns (id: TaskId)
      requires Valid()
      requires (machine.pc.Create? && machine.pc.i < |machine.plan| && machine.plan[machine.pc.i] == stage)
            || (machine.pc.RescueClean? && stage.StClean?) || (machine.pc.RescueStop? && stage.StStop?)
      requires claimed == O.ClaimedSteps(machine)
      modifies this`machine, this`log
      ensures Valid() && LocalsOf(machine) == LoggedLocals(LocalsOf(old(machine)), stage, id)
      ensures machine.pc == match old(machine).pc
              case Create(i) => O.Wait(i, id)
              case RescueClean => O.RescueCleanWait(id)
              case _ => O.RescueStopWait(id)
    {
      hide O.RunInv;
      id := *;
      Note(O.TaskCreated(id));
    }

    /** `wait_task` on the undisturbed path; only a guarded wait can be stopped. */
    method WaitTask(guarded: bool) returns (w: Waited)
      requires Valid() && machine.pc.Wait? && machine.pc.i < |machine.plan|
      requires guarded == O.Interruptible(machine.plan[machine.pc.i])
      modifies this`machine, this`log
      ensures Valid() && (w.Stopped? ==> guarded)
      ensures
        var i, l := old(machine).pc.i, LocalsOf(old(machine));
        if w.Finished? && (w.valid || !O.Inspected(machine.plan[i])) then
          machine.pc == O.Step(i) && LocalsOf(machine) == StepDone(l, machine.plan[i])
        else CaughtFrom(machine, l)
    {
      hide O.RunInv, O.Advance, O.Replay, O.Plan, O.Interruptible, O.Inspected, CaughtFrom, LocalsOf, StepDone;
      w := *;
      if w.Stopped? && !guarded { w := Broken; }
      ghost var e := match w case Finished(valid) => O.Answered(valid) case Broken => O.Broke case Stopped => O.Interrupt;
      WaitOutcome(machine, e);
      Note(e);
    }

    /** `wait_task` inside the `except` block, where its failure is swallowed. */
    method WaitTaskQuietly()
      requires Valid() && (machine.pc.RescueCleanWait? || machine.pc.RescueStopWait?)
      modifies this`machine, this`log
      ensures Valid()
      ensures var l := LocalsOf(old(machine));
              if old(machine).pc.RescueCleanWait? && l.server.Some? && !l.stop
              then machine.pc == O.RescueStop && LocalsOf(machine) == l.(stop := true)
              else machine.pc == O.Raised && LocalsOf(machine) == l
    {
      hide O.RunInv;
      var answered: bool := *;
      var valid: bool := *;
      Note(if answered then O.Answered(valid) else O.Broke);
    }

    /** `context.complete_step`: the counter saturates at the total, then the step is reported. */
    method CompleteStep() returns (passed: bool)
      requires Valid() && machine.pc.Step? && completedSteps + 1 == machine.steps
      modifies this`machine, this`log, this`completedSteps
      ensures Valid() && completedSteps == old(machine).steps
      ensures passed ==> machine.pc == PassedPc(old(machine)) && LocalsOf(machine) == LocalsOf(old(machine))
      ensures !passed ==> CaughtFrom(machine, LocalsOf(old(machine)))
    {
      completedSteps := Min(totalSteps, completedSteps + 1);
      passed := Report();
    }

    // ---- Pieces common to both runs ------------------------------------------------

    /** The task of stage `i` has been created and its flags are set. */
    ghost predicate Awaiting(i: nat)
      reads this
    {
      && Valid() && LocalsOf(machine) == Variables() && completedSteps == i && i < |machine.plan|
      && machine.pc.Wait? && machine.pc.i == i
    }

    /** Waits for the task of stage `i`, checks its evidence if the run needs it, and completes the step. */
    method Collect(i: nat, guarded: bool, inspected: bool, counted: bool) returns (ok: bool)
      requires Awaiting(i) && !machine.plan[i].StPrepare?
      requires guarded == O.Interruptible(machine.plan[i]) && inspected == O.Inspected(machine.plan[i])
      requires counted == machine.plan[i].StMeasure?
      modifies this`machine, this`log, this`completedSteps, this`measurements
      ensures ok ==> At(i + 1)
      ensures !ok ==> Caught()
    {
      hide O.RunInv, O.Plan, O.Replay, O.Advance, O.Reports, O.TotalSteps, O.Interruptible, O.EntryPoint, CaughtFrom;
      var w := WaitTask(guarded);
      if !w.Finished? || (inspected && !w.valid) {
        CaughtSteps(machine, Variables());
        return false;
      }
      if counted { measurements := measurements + 1; }
      ghost var l := LocalsOf(machine);
      ok := CompleteStep();
      if !ok { CaughtSteps(machine, l); }
    }

    /** Creates the service-start task and waits until the service is ready. */
    method StartServer() returns (ok: bool)
      requires At(0)
      modifies this
      ensures ok ==> At(1) && !prepared && !clientCleanupScheduled && !serviceCleanupScheduled
      ensures !ok ==> Caught()
    {
      hide O.RunInv, O.Plan, O.Replay, O.Advance;
      FirstStage();
      ok := Report();
      if !ok { return; }
      var start := CreateTask(O.StStart, Some(0));
      serverTask := Some(start);
      ok := Collect(0, true, false, false);
    }

    lemma FirstStage()
      requires At(0)
      ensures machine.pc == O.Report(0) && |machine.plan| >= 2 && machine.plan[0] == O.StStart
      ensures !prepared && !clientCleanupScheduled && !serviceCleanupScheduled
    {
      O.PlanAt(first.flow);
      assert machine.tasks == [] by { assert O.OnPlan(machine) && O.Position(machine); }
    }

    /** One measurement of the job loop, as stage `i` of the plan. */
    method Measure(job: nat, i: nat) returns (ok: bool)
      requires At(i) && i < |machine.plan| && machine.plan[i] == O.StMeasure(job)
      requires job + O.FirstMeasure(first.flow) == i
      modifies this
      ensures prepared == old(prepared) && clientCleanupScheduled == old(clientCleanupScheduled)
      ensures serviceCleanupScheduled == old(serviceCleanupScheduled) && serverTask == old(serverTask)
      ensures ok ==> At(i + 1)
      ensures !ok ==> Caught()
    {
      hide O.RunInv, O.Plan, O.Replay, O.Advance;
      ok := Report();
      if !ok { return; }
      var _ := CreateTask(O.StMeasure(job), Some(i));
      ok := Collect(i, true, true, true);
    }

    // ---- run_mysql ---------------------------------------------------------------

    method PrepareDataset() returns (ok: bool)
      requires first.flow.MySqlFlow? && At(1) && !prepared && !clientCleanupScheduled && !serviceCleanupScheduled
      modifies this
      ensures !clientCleanupScheduled && !serviceCleanupScheduled
      ensures ok ==> At(2)
      ensures !ok ==> Caught()
    {
      hide O.RunInv, O.Plan, O.Replay, O.Advance;
      O.PlanAt(first.flow);
      var _ := CreateTask(O.StPrepare, Some(1));
      var w := WaitTask(true);
      if !w.Finished? { return false; }
      prepared := w.valid;
      if !prepared { return false; }
      ok := CompleteStep();
    }

    method CleanUp(jobs: nat) returns (ok: bool)
      requires first.flow == O.MySqlFlow(jobs) && At(jobs + 2) && !clientCleanupScheduled && !serviceCleanupScheduled
      modifies this
      ensures ok ==> Valid() && LocalsOf(machine) == Variables() && machine.pc.Returned?
      ensures !ok ==> Caught()
    {
      hide O.RunInv, O.Plan, O.Replay, O.Advance, CaughtFrom;
      MySqlEnd(jobs);
      clientCleanupScheduled := true;
      var _ := CreateTask(O.StClean, Some(jobs + 2));
      ok := Collect(jobs + 2, false, false, false);
      if !ok { return; }
      serviceCleanupScheduled := true;
      var _ := CreateTask(O.StStop, None);
      ok := Collect(jobs + 3, false, false, false);
    }

    /** The `try` block of `run_mysql`; `false` means an exception reached the `except` clause. */
    method TryMySql(jobs: nat) returns (ok: bool)
      requires first.flow == O.MySqlFlow(jobs) && At(0)
      modifies this
      ensures ok ==> Valid() && LocalsOf(machine) == Variables() && machine.pc.Returned?
      ensures !ok ==> Caught()
    {
      hide O.RunInv, O.Plan, O.Replay, O.Advance, O.EntryPoint;
      ok := StartServer();
      if !ok { return; }
      ok := PrepareDataset();
      if !ok { return; }
      var job := 0;
      while job < jobs
        invariant job <= jobs && At(job + 2) && !clientCleanupScheduled && !serviceCleanupScheduled
      {
        O.PlanAt(first.flow);
        ok := Measure(job, job + 2);
        if !ok { return; }
        job := job + 1;
      }
      ok := CleanUp(jobs);
    }

    /** `run_mysql`: on every path the cleanup tasks are created as EndedRunCleansUp says. */
    method RunMySql(jobs: nat) returns (returned: bool)
      requires first.flow == O.MySqlFlow(jobs) && At(0)
      modifies this
      ensures Valid() && (if returned then machine.pc.Returned? else machine.pc.Raised?)
      ensures O.CleanedUp(machine, O.EverPrepared(first, log))
      ensures returned ==> completedSteps == jobs + 4
    {
      hide O.RunInv, O.Plan, O.Replay, O.Advance, O.CleanedUp;
      var ok := TryMySql(jobs);
      if ok {
        O.EndedShape(machine);
        Confirmed();
        return true;
      }
      if prepared && !clientCleanupScheduled {
        clientCleanupScheduled := true;
        var _ := CreateTask(O.StClean, Some(measurements + 2));
        WaitTaskQuietly();
      }
      if serverTask.Some? && !serviceCleanupScheduled {
        serviceCleanupScheduled := true;
        var _ := CreateTask(O.StStop, None);
        WaitTaskQuietly();
      }
      O.EndedShape(machine);
      Confirmed();
      returned := false;
    }

    // ---- run_database, PostgreSQL -------------------------------------------------

    /** One of the target-side drills, as stage `i` of the plan. */
    method Drill(stage: O.Stage, i: nat, claimed: nat, inspected: bool) returns (ok: bool)
      requires At(i) && i < |machine.plan| && machine.plan[i] == stage && machine.flow.PostgresFlow?
      requires O.Interruptible(stage) && inspected == O.Inspected(stage)
      requires stage.StBaseline? || stage.StPost? || stage.StRecovery?
      requires O.ClaimedSteps(machine.(pc := O.Create(i))) == Some(claimed)
      modifies this
      ensures clientCleanupScheduled == old(clientCleanupScheduled)
      ensures serviceCleanupScheduled == old(serviceCleanupScheduled)
      ensures ok ==> At(i + 1)
      ensures !ok ==> Caught()
    {
      hide O.RunInv, O.Plan, O.Replay, O.Advance;
      ok := Report();
      if !ok { return; }
      assert O.ClaimedSteps(machine) == Some(claimed);
      var _ := CreateTask(stage, Some(claimed));
      ok := Collect(i, true, inspected, false);
    }

    method StopServer(i: nat) returns (ok: bool)
      requires At(i) && i == |machine.plan| - 1 && machine.plan[i].StStop? && machine.flow.PostgresFlow?
      modifies this
      ensures ok ==> Valid() && LocalsOf(machine) == Variables() && machine.pc.Returned?
      ensures !ok ==> Caught()
    {
      hide O.RunInv, O.Plan, O.Replay, O.Advance;
      ok := Report();
      if !ok { return; }
      var _ := CreateTask(O.StStop, None);
      serviceCleanupScheduled := true;
      ok := Collect(i, false, false, false);
    }

    /** The measurements with the checkpoint probes around them. */
    method MeasureAll(jobs: nat, checkpoint: bool, recovery: bool) returns (ok: bool)
      requires first.flow == O.PostgresFlow(jobs, checkpoint, recovery) && At(1)
      modifies this
      ensures ok ==> At(jobs + (if checkpoint then 3 else 1))
      ensures !ok ==> Caught()
    {
      hide O.RunInv, O.Plan, O.Replay, O.Advance, O.EntryPoint;
      if checkpoint {
        O.PlanAt(first.flow);
        ok := Drill(O.StBaseline, 1, 1, true);
        if !ok { return; }
      }
      ghost var base := if checkpoint then 2 else 1;
      var job := 0;
      while job < jobs
        invariant job <= jobs && At(job + base)
      {
        O.PlanAt(first.flow);
        ok := Measure(job, job + (if checkpoint then 2 else 1));
        if !ok { return; }
        job := job + 1;
      }
      ok := true;
      if checkpoint {
        O.PlanAt(first.flow);
        ok := Drill(O.StPost, jobs + 2, jobs + 2, false);
      }
    }

    /** The `try` block of the PostgreSQL run. */
    method TryPostgres(jobs: nat, checkpoint: bool, recovery: bool) returns (ok: bool)
      requires first.flow == O.PostgresFlow(jobs, checkpoint, recovery) && At(0)
      modifies this
      ensures ok ==> Valid() && LocalsOf(machine) == Variables() && machine.pc.Returned?
      ensures !ok ==> Caught()
    {
      hide O.RunInv, O.Plan, O.Replay, O.Advance, O.EntryPoint;
      ok := StartServer();
      if !ok { return; }
      ok := MeasureAll(jobs, checkpoint, recovery);
      if !ok { return; }
      O.PlanAt(first.flow);
      var stage := jobs + (if checkpoint then 3 else 1);
      if recovery {
        ok := Drill(O.StRecovery, stage, jobs + 1, true);
        if !ok { return; }
        stage := stage + 1;
      }
      ok := StopServer(stage);
    }

    method RunDatabase(jobs: nat, checkpoint: bool, recovery: bool) returns (returned: bool)
      requires first.flow == O.PostgresFlow(jobs, checkpoint, recovery) && At(0)
      modifies this
      ensures Valid() && (if returned then machine.pc.Returned? else machine.pc.Raised?)
      ensures O.CleanedUp(machine, O.EverPrepared(first, log))
      ensures returned ==> completedSteps == O.TotalSteps(first.flow)
    {
      hide O.RunInv, O.Plan, O.Replay, O.Advance, O.CleanedUp;
      var ok := TryPostgres(jobs, checkpoint, recovery);
      if ok {
        O.EndedShape(machine);
        Confirmed();
        return true;
      }
      NeverPrepared(machine);
      if serverTask.Some? && !serviceCleanupScheduled {
        var _ := CreateTask(O.StStop, None);
        serviceCleanupScheduled := true;
        WaitTaskQuietly();
      }
      O.EndedShape(machine);
      Confirmed();
      returned := false;
    }
  }

  lemma NeverPrepared(r: O.Run)
    requires O.RunInv(r) && r.flow.PostgresFlow?
    ensures !r.prepared
  {
  }

  lemma {:induction false} ReplayPush(r: O.Run, events: seq<O.Event>, e: O.Event)
    ensures O.Replay(r, events + [e]) == O.Advance(O.Replay(r, events), e)
    decreases |events|
  {
    hide O.Advance;
    if events == [] {
      assert [e][1..] == [] && events + [e] == [e];
    } else {
      assert (events + [e])[1..] == events[1..] + [e];
      ReplayPush(O.Advance(r, events[0]), events[1..], e);
    }
  }
}
