/**
  The controller's durable task table (`agent_tasks`) and the in-memory map of
  per-task secrets, as a value together with one pure function per `Database`
  method. The class in Database.dfy is proved to compute exactly these
  functions; the protocol machine in Protocol.dfy is built from them.
 */
module TaskStore {
  import opened Wrappers

  type TaskId = nat
  type RunId = nat
  type AgentId = nat
  type Secret = map<string, string>

  datatype Status = Queued | Running | Completed | Failed | Cancelled {
    predicate Terminal() { Completed? || Failed? || Cancelled? }

    predicate Live() { Queued? || Running? }

    function Rank(): nat {
      match this
      case Queued => 0
      case Running => 1
      case _ => 2
    }
  }

  datatype Service = Postgres | Redis | MySql | Web

  /** A task's `kind` together with the payload fields the protocol depends on. */
  datatype Work =
    | ServiceStart(service: Service)
    | ServiceStop(service: Service, server: TaskId)
    | Prepare
    | Measure(index: nat)
    | ClientCleanup
    | CheckpointBaseline
    | CheckpointPost
    | RecoveryDrill
    | OtherWork

  /** A result document: `valid` says whether the run that asked for it accepts it. */
  datatype Doc = Doc(valid: bool, body: nat)

  /** The texts the store itself writes into `error`, and those it is handed. */
  datatype Note = ParentCancelled | ControllerRestarted | Reported(code: nat)

  datatype Meter = Meter(progress: real, completedSteps: int, totalSteps: int)

  datatype Row = Row(
    run: RunId, agent: AgentId, work: Work,
    status: Status, result: Option<Doc>, error: Option<Note>,
    createdAt: int, order: nat, claimed: bool, meter: Meter)

  /** `issued` is history: every secret ever handed to `create_agent_task`. */
  datatype Store = Store(
    rows: map<TaskId, Row>, secrets: map<TaskId, Secret>, issued: map<TaskId, Secret>)

  datatype NewTask = NewTask(
    id: TaskId, run: RunId, agent: AgentId, work: Work, secret: Option<Secret>, now: int)

  datatype StoreError = InvalidSecret | DuplicateTask | InvalidStatus

  const EMPTY := Store(map[], map[], map[])

  // ---- create_agent_task -------------------------------------------------

  predicate IdentifierStart(c: char) { c == '_' || 'a' <= c <= 'z' || 'A' <= c <= 'Z' }

  predicate IdentifierPart(c: char) { IdentifierStart(c) || '0' <= c <= '9' }

  predicate Identifier(key: string) {
    && key != ""
    && IdentifierStart(key[0])
    && forall i :: 0 <= i < |key| ==> IdentifierPart(key[i])
  }

  predicate BoundedSecret(secret: Secret) {
    && 1 <= |secret| <= 8
    && forall key :: key in secret ==>
         Identifier(key) && |key| <= 64 && 16 <= |secret[key]| <= 512
  }

  function CreateError(s: Store, t: NewTask): (e: Option<StoreError>) {
    if t.secret.Some? && !BoundedSecret(t.secret.value) then Some(InvalidSecret)
    else if t.id in s.rows then Some(DuplicateTask)
    else None
  }

  function NewRow(t: NewTask, order: nat): Row {
    Row(t.run, t.agent, t.work, Queued, None, None, t.now, order, false, Meter(0.0, 0, 0))
  }

  function Insert(s: Store, t: NewTask): Store {
    Store(s.rows[t.id := NewRow(t, |s.rows|)],
          if t.secret.Some? then s.secrets[t.id := t.secret.value] else s.secrets,
          if t.secret.Some? then s.issued[t.id := t.secret.value] else s.issued)
  }

  function Create(s: Store, t: NewTask): (s': Store) {
    if CreateError(s, t).Some? then s else Insert(s, t)
  }

  /** Writes one row; a row that is written as terminal gives up its secret. */
  function Put(s: Store, id: TaskId, row: Row): Store {
    s.(rows := s.rows[id := row],
       secrets := if row.status.Live() then s.secrets else s.secrets - {id})
  }

  // ---- claim_agent_task --------------------------------------------------

  predicate QueuedFor(s: Store, agent: AgentId, id: TaskId) {
    id in s.rows && s.rows[id].agent == agent && s.rows[id].status.Queued?
  }

  /** The rows `ORDER BY created_at LIMIT 1` may return; ties are left open, as SQL leaves them. */
  predicate OldestQueued(s: Store, agent: AgentId, id: TaskId) {
    && QueuedFor(s, agent, id)
    && forall other :: other in s.rows && QueuedFor(s, agent, other) ==>
         s.rows[id].createdAt <= s.rows[other].createdAt
  }

  function Claim(s: Store, agent: AgentId, id: TaskId): (s': Store) {
    if OldestQueued(s, agent, id)
    then Put(s, id, s.rows[id].(status := Running, claimed := true))
    else s
  }

  /** The `ephemeral_secret` that accompanies a claimed task. */
  function Delivered(s: Store, id: TaskId): Option<Secret> {
    if id in s.secrets then Some(s.secrets[id]) else None
  }

  // ---- finish_agent_task -------------------------------------------------

  function Coalesce<T>(latest: Option<T>, stored: Option<T>): Option<T> {
    if latest.Some? then latest else stored
  }

  predicate Owns(s: Store, agent: AgentId, id: TaskId) {
    id in s.rows && s.rows[id].agent == agent
  }

  predicate FinishReply(s: Store, id: TaskId, agent: AgentId) {
    Owns(s, agent, id) && (s.rows[id].status.Running? || s.rows[id].status.Terminal())
  }

  function Finish(s: Store, id: TaskId, agent: AgentId, status: Status, result: Option<Doc>, error: Option<Note>)
    : (s': Store)
  {
    if !status.Terminal() || !FinishReply(s, id, agent) then s
    else
      var row := s.rows[id];
      var row' := if row.status.Running?
                  then row.(status := status, result := Coalesce(result, row.result), error := error)
                  else row;
      Put(s, id, row')
  }

  // ---- update_agent_task_progress ----------------------------------------

  function Clamp(meter: Meter): Meter {
    Meter(if meter.progress < 0.0 then 0.0 else if meter.progress > 1.0 then 1.0 else meter.progress,
          if meter.completedSteps < 0 then 0 else meter.completedSteps,
          if meter.totalSteps < 1 then 1 else meter.totalSteps)
  }

  predicate ProgressReply(s: Store, id: TaskId, agent: AgentId) {
    Owns(s, agent, id) && s.rows[id].status.Running?
  }

  function Progress(s: Store, id: TaskId, agent: AgentId, meter: Meter, result: Option<Doc>): (s': Store) {
    if !ProgressReply(s, id, agent) then s
    else
      var row := s.rows[id];
      Put(s, id, row.(meter := Clamp(meter), result := Coalesce(result, row.result)))
  }

  // ---- abort_agent_task --------------------------------------------------

  predicate AbortReply(s: Store, id: TaskId) {
    id in s.rows && s.rows[id].status.Live()
  }

  function Abort(s: Store, id: TaskId, error: Note): (s': Store) {
    if !AbortReply(s, id) then s
    else Put(s, id, s.rows[id].(status := Cancelled, error := Some(error)))
  }

  // ---- cancel_queued_run_tasks -------------------------------------------

  function QueuedOfRun(s: Store, run: RunId): set<TaskId> {
    set id | id in s.rows && s.rows[id].run == run && s.rows[id].status.Queued?
  }

  function CancelQueued(s: Store, run: RunId): (s': Store) {
    var doomed := QueuedOfRun(s, run);
    s.(rows := map id | id in s.rows ::
                 if id in doomed then s.rows[id].(status := Cancelled, error := Some(ParentCancelled))
                 else s.rows[id],
       secrets := s.secrets - doomed)
  }

  // ---- recover_incomplete_runs -------------------------------------------

  function Recover(s: Store): (s': Store) {
    s.(rows := map id | id in s.rows ::
                 if s.rows[id].status.Live()
                 then s.rows[id].(status := Cancelled, error := Some(ControllerRestarted))
                 else s.rows[id],
       secrets := map[])
  }

  // ---- Runs of the store -------------------------------------------------

  datatype Op =
    | OpCreate(task: NewTask)
    | OpClaim(agent: AgentId, id: TaskId)
    | OpFinish(id: TaskId, agent: AgentId, status: Status, result: Option<Doc>, error: Option<Note>)
    | OpProgress(id: TaskId, agent: AgentId, meter: Meter, result: Option<Doc>)
    | OpAbort(id: TaskId, note: Note)
    | OpCancelQueued(run: RunId)
    | OpRecover

  function Apply(s: Store, op: Op): Store {
    match op
    case OpCreate(t) => Create(s, t)
    case OpClaim(agent, id) => Claim(s, agent, id)
    case OpFinish(id, agent, status, result, error) => Finish(s, id, agent, status, result, error)
    case OpProgress(id, agent, meter, result) => Progress(s, id, agent, meter, result)
    case OpAbort(id, note) => Abort(s, id, note)
    case OpCancelQueued(run) => CancelQueued(s, run)
    case OpRecover => Recover(s)
  }

  function ApplyAll(s: Store, ops: seq<Op>): Store
    decreases |ops|
  {
    if ops == [] then s else ApplyAll(Apply(s, ops[0]), ops[1..])
  }

  /** What may happen to one row between two moments. */
  ghost predicate Evolves(before: Row, after: Row) {
    && after.run == before.run && after.agent == before.agent && after.work == before.work
    && after.createdAt == before.createdAt && after.order == before.order
    && before.status.Rank() <= after.status.Rank()
    && (before.claimed ==> after.claimed)
    && (!before.status.Queued? ==> after.claimed == before.claimed)
    && (before.status.Terminal() ==> after == before)
    && (after.claimed && !before.claimed ==> before.status.Queued?)
  }

  ghost predicate RowsEvolve(s: Store, s': Store) {
    forall id :: id in s.rows ==> id in s'.rows && Evolves(s.rows[id], s'.rows[id])
  }

  /** The secret a task was created with. */
  function IssuedFor(s: Store, id: TaskId): Option<Secret> {
    if id in s.issued then Some(s.issued[id]) else None
  }

  ghost predicate SecretsStand(s: Store, s': Store) {
    forall id :: id in s.rows ==> IssuedFor(s', id) == IssuedFor(s, id)
  }

  ghost predicate StoreEvolves(s: Store, s': Store) {
    RowsEvolve(s, s') && SecretsStand(s, s')
  }

  ghost predicate LiveRow(s: Store, id: TaskId) {
    id in s.rows && s.rows[id].status.Live()
  }

  /** The secret map holds exactly the secrets of the tasks that are still queued or running. */
  ghost predicate SecretsExact(s: Store) {
    && (forall id :: Delivered(s, id) == if LiveRow(s, id) then IssuedFor(s, id) else None)
    && (forall id :: id in s.issued ==> id in s.rows)
  }

  ghost predicate RowOk(row: Row, population: nat) {
    && row.order < population
    && (row.status.Queued? ==> !row.claimed)
    && (row.status.Running? || row.status.Completed? || row.status.Failed? ==> row.claimed)
  }

  ghost predicate RowsOk(s: Store) {
    forall id :: id in s.rows ==> RowOk(s.rows[id], |s.rows|)
  }

  ghost predicate OrdersDistinct(s: Store) {
    forall a, b :: a in s.rows && b in s.rows && a != b ==> s.rows[a].order != s.rows[b].order
  }

  ghost predicate StoreInv(s: Store) {
    SecretsExact(s) && RowsOk(s) && OrdersDistinct(s)
  }

  lemma InsertKeepsSecretsExact(s: Store, t: NewTask)
    requires SecretsExact(s) && t.id !in s.rows
    ensures SecretsExact(Insert(s, t)) && SecretsStand(s, Insert(s, t))
  {
    var s' := Insert(s, t);
    assert Delivered(s, t.id).None? && IssuedFor(s, t.id).None?;
    forall id ensures Delivered(s', id) == if LiveRow(s', id) then IssuedFor(s', id) else None {
      if id != t.id {
        assert Delivered(s', id) == Delivered(s, id) && IssuedFor(s', id) == IssuedFor(s, id);
        assert LiveRow(s', id) == LiveRow(s, id);
      }
    }
  }

  lemma InsertKeepsRowsOk(s: Store, t: NewTask)
    requires RowsOk(s) && OrdersDistinct(s) && t.id !in s.rows
    ensures RowsOk(Insert(s, t)) && OrdersDistinct(Insert(s, t)) && RowsEvolve(s, Insert(s, t))
  {
    var s' := Insert(s, t);
    assert |s'.rows| == |s.rows| + 1 by {
      assert s'.rows.Keys == s.rows.Keys + {t.id};
      assert |s'.rows| == |s'.rows.Keys| == |s.rows.Keys| + 1;
    }
    forall id | id in s'.rows ensures RowOk(s'.rows[id], |s'.rows|) {
      if id != t.id { assert RowOk(s.rows[id], |s.rows|); }
    }
    forall a, b | a in s'.rows && b in s'.rows && a != b
      ensures s'.rows[a].order != s'.rows[b].order
    {
      if a != t.id { assert RowOk(s.rows[a], |s.rows|); }
      if b != t.id { assert RowOk(s.rows[b], |s.rows|); }
    }
  }

  lemma InsertFacts(s: Store, t: NewTask)
    requires StoreInv(s) && t.id !in s.rows
    ensures StoreInv(Insert(s, t)) && StoreEvolves(s, Insert(s, t))
  {
    InsertKeepsSecretsExact(s, t);
    InsertKeepsRowsOk(s, t);
  }

  /** All calls but `create_agent_task` rewrite rows in place and can only drop secrets. */
  lemma RewriteFacts(s: Store, s': Store)
    requires StoreInv(s)
    requires s'.rows.Keys == s.rows.Keys && s'.issued == s.issued
    requires forall id :: id in s.rows ==>
               Evolves(s.rows[id], s'.rows[id]) && RowOk(s'.rows[id], |s.rows|)
    requires forall id :: Delivered(s', id) == if LiveRow(s', id) then Delivered(s, id) else None
    ensures StoreInv(s') && StoreEvolves(s, s')
  {
    assert |s'.rows| == |s'.rows.Keys| == |s.rows.Keys| == |s.rows|;
    forall a, b | a in s'.rows && b in s'.rows && a != b
      ensures s'.rows[a].order != s'.rows[b].order
    {
      assert Evolves(s.rows[a], s'.rows[a]) && Evolves(s.rows[b], s'.rows[b]);
    }
    forall id ensures Delivered(s', id) == if LiveRow(s', id) then IssuedFor(s', id) else None {
      if LiveRow(s', id) { assert Evolves(s.rows[id], s'.rows[id]); }
    }
  }

  lemma PutFacts(s: Store, id: TaskId, row: Row)
    requires StoreInv(s) && id in s.rows
    requires Evolves(s.rows[id], row) && RowOk(row, |s.rows|)
    ensures StoreInv(Put(s, id, row)) && StoreEvolves(s, Put(s, id, row))
  {
    var s' := Put(s, id, row);
    assert s'.rows.Keys == s.rows.Keys;
    forall k ensures Delivered(s', k) == if LiveRow(s', k) then Delivered(s, k) else None {
      assert Delivered(s, k).Some? ==> LiveRow(s, k);
    }
    forall k | k in s.rows
      ensures Evolves(s.rows[k], s'.rows[k]) && RowOk(s'.rows[k], |s.rows|)
    {
      assert RowOk(s.rows[k], |s.rows|);
    }
    RewriteFacts(s, s');
  }

  lemma StandstillFacts(s: Store)
    requires StoreInv(s)
    ensures StoreEvolves(s, s)
  {
  }

  lemma ApplyFacts(s: Store, op: Op)
    requires StoreInv(s)
    ensures StoreInv(Apply(s, op)) && StoreEvolves(s, Apply(s, op))
  {
    hide StoreInv, StoreEvolves, Create, Claim, Finish, Progress, Abort, CancelQueued, Recover;
    match op
    case OpCreate(t) => CreateFacts(s, t);
    case OpCancelQueued(run) => CancelQueuedFacts(s, run);
    case OpRecover => RecoverFacts(s);
    case OpClaim(agent, id) => ClaimFacts(s, agent, id);
    case OpFinish(id, agent, status, result, error) => FinishFacts(s, id, agent, status, result, error);
    case OpProgress(id, agent, meter, result) => ProgressFacts(s, id, agent, meter, result);
    case OpAbort(id, note) => AbortFacts(s, id, note);
  }

  lemma CreateFacts(s: Store, t: NewTask)
    requires StoreInv(s)
    ensures StoreInv(Create(s, t)) && StoreEvolves(s, Create(s, t))
  {
    if t.id in s.rows || CreateError(s, t).Some? { StandstillFacts(s); } else { InsertFacts(s, t); }
  }

  lemma CancelQueuedFacts(s: Store, run: RunId)
    requires StoreInv(s)
    ensures StoreInv(CancelQueued(s, run)) && StoreEvolves(s, CancelQueued(s, run))
  {
    SweepFacts(s, CancelQueued(s, run), QueuedOfRun(s, run), ParentCancelled);
  }

  lemma RecoverFacts(s: Store)
    requires StoreInv(s)
    ensures StoreInv(Recover(s)) && StoreEvolves(s, Recover(s))
  {
    SweepFacts(s, Recover(s), (set id | id in s.rows && s.rows[id].status.Live()), ControllerRestarted);
  }

  lemma ClaimFacts(s: Store, agent: AgentId, id: TaskId)
    requires StoreInv(s)
    ensures StoreInv(Claim(s, agent, id)) && StoreEvolves(s, Claim(s, agent, id))
  {
    hide StoreInv, StoreEvolves, Put;
    StandstillFacts(s);
    if OldestQueued(s, agent, id) {
      var row := s.rows[id];
      RowOf(s, id);
      PutFacts(s, id, row.(status := Running, claimed := true));
    }
  }

  lemma FinishFacts(s: Store, id: TaskId, agent: AgentId, status: Status, result: Option<Doc>, error: Option<Note>)
    requires StoreInv(s)
    ensures StoreInv(Finish(s, id, agent, status, result, error))
    ensures StoreEvolves(s, Finish(s, id, agent, status, result, error))
  {
    hide StoreInv, StoreEvolves, Put, Coalesce;
    StandstillFacts(s);
    if status.Terminal() && FinishReply(s, id, agent) {
      var row := s.rows[id];
      RowOf(s, id);
      PutFacts(s, id, if row.status.Running?
                      then row.(status := status, result := Coalesce(result, row.result), error := error)
                      else row);
    }
  }

  lemma ProgressFacts(s: Store, id: TaskId, agent: AgentId, meter: Meter, result: Option<Doc>)
    requires StoreInv(s)
    ensures StoreInv(Progress(s, id, agent, meter, result)) && StoreEvolves(s, Progress(s, id, agent, meter, result))
  {
    hide StoreInv, StoreEvolves, Put, Coalesce, Clamp;
    StandstillFacts(s);
    if ProgressReply(s, id, agent) {
      var row := s.rows[id];
      RowOf(s, id);
      PutFacts(s, id, row.(meter := Clamp(meter), result := Coalesce(result, row.result)));
    }
  }

  lemma AbortFacts(s: Store, id: TaskId, note: Note)
    requires StoreInv(s)
    ensures StoreInv(Abort(s, id, note)) && StoreEvolves(s, Abort(s, id, note))
  {
    hide StoreInv, StoreEvolves, Put;
    StandstillFacts(s);
    if AbortReply(s, id) {
      RowOf(s, id);
      PutFacts(s, id, s.rows[id].(status := Cancelled, error := Some(note)));
    }
  }

  lemma DeliveredIsLive(s: Store, id: TaskId)
    requires StoreInv(s)
    ensures Delivered(s, id).Some? ==> LiveRow(s, id)
  {
  }

  lemma RowOf(s: Store, id: TaskId)
    requires StoreInv(s) && id in s.rows
    ensures RowOk(s.rows[id], |s.rows|)
  {
  }

  lemma SweepFacts(s: Store, s': Store, doomed: set<TaskId>, note: Note)
    requires StoreInv(s)
    requires forall id :: id in doomed ==> LiveRow(s, id)
    requires s'.rows == map id | id in s.rows ::
                          if id in doomed then s.rows[id].(status := Cancelled, error := Some(note)) else s.rows[id]
    requires s'.issued == s.issued
    requires forall id :: Delivered(s', id) == if id in doomed then None else Delivered(s, id)
    ensures StoreInv(s') && StoreEvolves(s, s')
  {
    hide StoreInv, StoreEvolves;
    assert s'.rows.Keys == s.rows.Keys;
    forall k ensures Delivered(s', k) == if LiveRow(s', k) then Delivered(s, k) else None {
      DeliveredIsLive(s, k);
    }
    forall k | k in s.rows
      ensures Evolves(s.rows[k], s'.rows[k]) && RowOk(s'.rows[k], |s.rows|)
    {
      RowOf(s, k);
      if k in doomed { assert LiveRow(s, k); }
    }
    RewriteFacts(s, s');
  }

  lemma EvolvesTransitive(s0: Store, s1: Store, s2: Store)
    requires StoreEvolves(s0, s1) && StoreEvolves(s1, s2)
    ensures StoreEvolves(s0, s2)
  {
    forall id | id in s0.rows
      ensures id in s2.rows && Evolves(s0.rows[id], s2.rows[id])
    {
      assert Evolves(s0.rows[id], s1.rows[id]) && Evolves(s1.rows[id], s2.rows[id]);
    }
  }

  /**
    Over every sequence of controller calls: rows never disappear, a row's status
    rank never decreases, and a terminal row is never written again. In every
    state so reached the secret map is exact.
   */
  lemma {:induction false} EveryRunEvolves(s: Store, ops: seq<Op>)
    requires StoreInv(s)
    ensures StoreInv(ApplyAll(s, ops)) && StoreEvolves(s, ApplyAll(s, ops))
    decreases |ops|
  {
    if ops != [] {
      ApplyFacts(s, ops[0]);
      EveryRunEvolves(Apply(s, ops[0]), ops[1..]);
      EvolvesTransitive(s, Apply(s, ops[0]), ApplyAll(s, ops));
    }
  }

  /** A progress or finish call that writes the row of `id`: it comes from the row's Agent while the row runs. */
  predicate Writes(s: Store, op: Op, id: TaskId) {
    && (op.OpProgress? || (op.OpFinish? && (op.status == Completed || op.status == Failed || op.status == Cancelled)))
    && op.id == id && id in s.rows && s.rows[id].agent == op.agent && s.rows[id].status == Running
  }

  /** The results such calls supplied, in order. */
  function Supplied(s: Store, ops: seq<Op>, id: TaskId): seq<Doc>
    decreases |ops|
  {
    if ops == [] then []
    else
      (if Writes(s, ops[0], id) && ops[0].result.Some? then [ops[0].result.value] else [])
      + Supplied(Apply(s, ops[0]), ops[1..], id)
  }

  function StoredResult(s: Store, id: TaskId): Option<Doc> { if id in s.rows then s.rows[id].result else None }

  lemma ResultStep(s: Store, op: Op, id: TaskId)
    ensures StoredResult(Apply(s, op), id)
         == if Writes(s, op, id) && op.result.Some? then op.result else StoredResult(s, id)
  {
  }

  /** Over any sequence of calls: a row's result is the last one a call of its Agent supplied while it ran. */
  lemma {:induction false} ResultIsLastSupplied(s: Store, ops: seq<Op>, id: TaskId)
    ensures var docs := Supplied(s, ops, id);
      StoredResult(ApplyAll(s, ops), id) == if docs == [] then StoredResult(s, id) else Some(docs[|docs| - 1])
    decreases |ops|
  {
    hide Apply, Writes;
    if ops != [] {
      ResultStep(s, ops[0], id);
      ResultIsLastSupplied(Apply(s, ops[0]), ops[1..], id);
    }
  }

  /** How often `id` changes from unclaimed to claimed along a run of the store. */
  function Claims(s: Store, ops: seq<Op>, id: TaskId): nat
    decreases |ops|
  {
    if ops == [] then 0
    else
      var s' := Apply(s, ops[0]);
      (if ops[0].OpClaim? && ops[0].id == id && OldestQueued(s, ops[0].agent, id) then 1 else 0)
      + Claims(s', ops[1..], id)
  }

  /** No task is handed out twice, and none is handed out once it has left the queue. */
  lemma {:induction false} ClaimedAtMostOnce(s: Store, ops: seq<Op>, id: TaskId)
    requires StoreInv(s)
    ensures Claims(s, ops, id) <= (if id in s.rows && !s.rows[id].status.Queued? then 0 else 1)
    decreases |ops|
  {
    if ops != [] {
      ApplyFacts(s, ops[0]);
      ClaimedAtMostOnce(Apply(s, ops[0]), ops[1..], id);
    }
  }

  /** Whatever happened before, a claim hands over exactly the secret the task was created with. */
  lemma ClaimDeliversIssuedSecret(ops: seq<Op>, agent: AgentId, id: TaskId)
    requires OldestQueued(ApplyAll(EMPTY, ops), agent, id)
    ensures var s := ApplyAll(EMPTY, ops);
            Delivered(s, id) == IssuedFor(s, id)
  {
    EveryRunEvolves(EMPTY, ops);
  }

  lemma QueueHasOldest(s: Store, agent: AgentId, candidates: set<TaskId>) returns (id: TaskId)
    requires candidates != {}
    requires forall c :: c in candidates ==> QueuedFor(s, agent, c)
    ensures id in candidates
    ensures forall c :: c in candidates ==> c in s.rows
    ensures forall c :: c in candidates ==> s.rows[id].createdAt <= s.rows[c].createdAt
    decreases |candidates|
  {
    id :| id in candidates;
    var rest := candidates - {id};
    ghost var first := id;
    assert forall c :: c in candidates <==> c == first || c in rest;
    assert QueuedFor(s, agent, first);
    if rest != {} {
      var best := QueueHasOldest(s, agent, rest);
      if s.rows[best].createdAt < s.rows[id].createdAt { id := best; }
    }
  }

  /** `claim_agent_task` answers null exactly when the agent has nothing queued. */
  lemma NonEmptyQueueIsClaimable(s: Store, agent: AgentId)
    ensures (exists id :: OldestQueued(s, agent, id)) <==> (exists id :: QueuedFor(s, agent, id))
  {
    if id :| QueuedFor(s, agent, id) {
      var queue := set c | c in s.rows && QueuedFor(s, agent, c);
      assert id in queue;
      var oldest := QueueHasOldest(s, agent, queue);
      assert OldestQueued(s, agent, oldest);
    }
  }

  // ---- Oldest-first service ------------------------------------------------

  /** `a` was inserted before `b` for the same agent, and the clock did not step back in between. */
  predicate Ahead(a: Row, b: Row) {
    a.agent == b.agent && a.order < b.order && a.createdAt < b.createdAt
  }

  /** A claimed task has overtaken no task that is still waiting ahead of it. */
  ghost predicate QueueDiscipline(s: Store) {
    forall a, b :: a in s.rows && b in s.rows && s.rows[b].claimed && Ahead(s.rows[a], s.rows[b]) ==>
      !s.rows[a].status.Queued?
  }

  lemma DisciplineKept(s: Store, op: Op)
    requires StoreInv(s) && QueueDiscipline(s)
    ensures QueueDiscipline(Apply(s, op))
  {
    hide StoreInv, Apply;
    var s' := Apply(s, op);
    ApplyFacts(s, op);
    forall a, b | a in s'.rows && b in s'.rows && s'.rows[b].claimed && Ahead(s'.rows[a], s'.rows[b])
      ensures !s'.rows[a].status.Queued?
    {
      NewClaims(s, op, b);
      assert Evolves(s.rows[b], s'.rows[b]);
      RowOf(s, b);
      if a !in s.rows { NewRows(s, op, a); } else { assert Evolves(s.rows[a], s'.rows[a]); }
    }
  }

  /** Only a claim marks a row claimed, and the row was then the oldest in its queue. */
  lemma NewClaims(s: Store, op: Op, id: TaskId)
    requires id in Apply(s, op).rows && Apply(s, op).rows[id].claimed
    ensures id in s.rows
    ensures s.rows[id].claimed || OldestQueued(s, s.rows[id].agent, id)
  {
  }

  lemma NewRows(s: Store, op: Op, id: TaskId)
    requires id in Apply(s, op).rows && id !in s.rows
    ensures Apply(s, op).rows[id].order == |s.rows| && Apply(s, op).rows[id].status.Queued?
  {
  }
}
