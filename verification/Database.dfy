/**
  The task part of `Database`: the row table and the in-memory secret map it
  updates in place. Every method does exactly what TaskStore says and keeps the
  secret map exact; SQL selection order is left open where SQL leaves it open.
 */
module TaskDatabase {
  import opened Wrappers
  import opened TaskStore

  /** What a claim of the table alone means for the table with its history. */
  lemma ClaimOfTable(s: Store, table: Store, agent: AgentId, id: TaskId)
    requires StoreInv(s) && table.rows == s.rows && OldestQueued(table, agent, id)
    ensures OldestQueued(s, agent, id) && id in s.rows && s.rows[id].agent == agent && s.rows[id].status.Queued?
    ensures Delivered(s, id) == IssuedFor(s, id)
  {
    assert RowOk(s.rows[id], |s.rows|) && LiveRow(s, id);
  }

  lemma QueueIsClaimable(s: Store, agent: AgentId, queue: set<TaskId>)
    requires queue != {} && forall id :: id in queue <==> id in s.rows && QueuedFor(s, agent, id)
    ensures exists id :: id in s.rows && OldestQueued(s, agent, id)
  {
    var oldest := QueueHasOldest(s, agent, queue);
    assert OldestQueued(s, agent, oldest);
  }

  lemma CancelQueuedIs(s: Store, run: RunId)
    ensures Apply(s, OpCancelQueued(run)) == CancelQueued(s, run)
    ensures var ids := set id | id in s.rows && s.rows[id].run == run && s.rows[id].status.Queued?;
      && ids == QueuedOfRun(s, run)
      && CancelQueued(s, run) == s.(
           rows := map id | id in s.rows ::
             if id in ids then s.rows[id].(status := Cancelled, error := Some(ParentCancelled)) else s.rows[id],
           secrets := s.secrets - ids)
  {
  }

  datatype Claimed = Claimed(id: TaskId, row: Row, secret: Option<Secret>)

  class Database {
    var rows: map<TaskId, Row>
    var secrets: map<TaskId, Secret>
    ghost var issued: map<TaskId, Secret>

    ghost function View(): Store
      reads this
    {
      Store(rows, secrets, issued)
    }

    ghost predicate Valid()
      reads this
    {
      StoreInv(View())
    }

    constructor ()
      ensures Valid() && View() == EMPTY
    {
      rows, secrets, issued := map[], map[], map[];
    }

    method CreateAgentTask(t: NewTask) returns (r: Result<(), StoreError>)
      requires Valid()
      modifies this
      ensures Valid() && View() == Create(old(View()), t)
      ensures r == match CreateError(old(View()), t) case Some(e) => Err(e) case None => Ok(())
      ensures r.Ok? <==> t.id !in old(rows) && (t.secret.Some? ==>
        var secret := t.secret.value;
        && 1 <= |secret| <= 8
        && forall key :: key in secret ==> Identifier(key) && |key| <= 64 && 16 <= |secret[key]| <= 512)
      ensures !r.Ok? ==> rows == old(rows) && secrets == old(secrets)
      ensures r.Ok? ==>
        && rows == old(rows)[t.id := Row(t.run, t.agent, t.work, Queued, None, None, t.now, |old(rows)|, false, Meter(0.0, 0, 0))]
        && secrets == if t.secret.Some? then old(secrets)[t.id := t.secret.value] else old(secrets)
    {
      hide StoreInv, StoreEvolves;
      ghost var before := View();
      CreateFacts(before, t);
      if t.secret.Some? && !BoundedSecret(t.secret.value) { return Err(InvalidSecret); }
      if t.id in rows { return Err(DuplicateTask); }
      rows := rows[t.id := NewRow(t, |rows|)];
      if t.secret.Some? {
        secrets := secrets[t.id := t.secret.value];
        issued := issued[t.id := t.secret.value];
      }
      assert View() == Insert(before, t);
      r := Ok(());
    }

    method ClaimAgentTask(agent: AgentId) returns (task: Option<Claimed>)
      requires Valid()
      modifies this
      ensures Valid()
      ensures task.None? <==> forall id :: !QueuedFor(old(View()), agent, id)
      ensures task.None? ==> View() == old(View())
      ensures task.Some? ==>
        && OldestQueued(old(View()), agent, task.value.id)
        && View() == Claim(old(View()), agent, task.value.id)
        && task.value.id in rows && task.value.row == rows[task.value.id]
        && task.value.secret == Delivered(old(View()), task.value.id)
        && task.value.secret == IssuedFor(View(), task.value.id)
      ensures task.Some? ==>
        var id := task.value.id;
        && id in old(rows) && old(rows)[id].agent == agent && old(rows)[id].status == Queued
        && (forall k :: k in old(rows) && old(rows)[k].agent == agent && old(rows)[k].status == Queued ==>
             old(rows)[id].createdAt <= old(rows)[k].createdAt)
        && rows == old(rows)[id := old(rows)[id].(status := Running, claimed := true)] && secrets == old(secrets)
    {
      hide StoreInv, StoreEvolves, OldestQueued;
      ghost var before := View();
      var table := Store(rows, secrets, map[]);
      assert forall id :: QueuedFor(table, agent, id) <==> QueuedFor(before, agent, id);
      var queue := set id | id in rows && QueuedFor(table, agent, id);
      if queue == {} {
        assert forall id :: QueuedFor(before, agent, id) ==> id in queue;
        return None;
      }
      QueueIsClaimable(table, agent, queue);
      var id :| id in rows && OldestQueued(table, agent, id);
      ClaimOfTable(before, table, agent, id);
      rows := rows[id := rows[id].(status := Running, claimed := true)];
      task := Some(Claimed(id, rows[id], if id in secrets then Some(secrets[id]) else None));
      ApplyFacts(before, OpClaim(agent, id));
      assert View() == Claim(before, agent, id);
    }

    method FinishAgentTask(id: TaskId, agent: AgentId, status: Status, result: Option<Doc>, error: Option<Note>)
      returns (r: Result<bool, StoreError>)
      requires Valid()
      modifies this
      ensures Valid() && View() == Finish(old(View()), id, agent, status, result, error)
      ensures !status.Terminal() <==> r == Err(InvalidStatus)
      ensures status.Terminal() ==> r == Ok(FinishReply(old(View()), id, agent))
      ensures r.Err? <==> status == Queued || status == Running
      ensures r == Ok(true) <==> r.Ok? && id in old(rows) && old(rows)[id].agent == agent && old(rows)[id].status != Queued
      ensures r.Ok? && id in old(rows) && old(rows)[id].agent == agent && old(rows)[id].status == Running ==>
        && id in rows && rows[id].status == status && rows[id].error == error
        && rows[id].result == (if result.Some? then result else old(rows)[id].result)
        && rows == old(rows)[id := old(rows)[id].(status := status, error := error, result := rows[id].result)]
      ensures !(r.Ok? && id in old(rows) && old(rows)[id].agent == agent && old(rows)[id].status == Running) ==>
        rows == old(rows)
      ensures secrets == if r == Ok(true) then old(secrets) - {id} else old(secrets)
    {
      hide StoreInv, StoreEvolves;
      ghost var before := View();
      ApplyFacts(before, OpFinish(id, agent, status, result, error));
      if !status.Terminal() { return Err(InvalidStatus); }
      if id !in rows || rows[id].agent != agent { return Ok(false); }
      var row := rows[id];
      if row.status.Running? {
        rows := rows[id := row.(status := status, result := Coalesce(result, row.result), error := error)];
        secrets := secrets - {id};
        assert View() == Finish(before, id, agent, status, result, error);
        return Ok(true);
      }
      if row.status.Terminal() {
        secrets := secrets - {id};
        assert rows == rows[id := row];
      }
      r := Ok(row.status.Terminal());
    }

    method UpdateAgentTaskProgress(id: TaskId, agent: AgentId, meter: Meter, result: Option<Doc>)
      returns (row: Option<Row>)
      requires Valid()
      modifies this
      ensures Valid() && View() == Progress(old(View()), id, agent, meter, result)
      ensures row == if ProgressReply(old(View()), id, agent) then Some(rows[id]) else None
      ensures secrets == old(secrets)
      ensures row.Some? <==> id in old(rows) && old(rows)[id].agent == agent && old(rows)[id].status == Running
      ensures row.None? ==> rows == old(rows)
      ensures row.Some? ==>
        && id in rows && rows[id].result == (if result.Some? then result else old(rows)[id].result)
        && (0.0 <= meter.progress <= 1.0 ==> rows[id].meter.progress == meter.progress)
        && (meter.progress < 0.0 ==> rows[id].meter.progress == 0.0)
        && (meter.progress > 1.0 ==> rows[id].meter.progress == 1.0)
        && rows[id].meter.completedSteps == (if meter.completedSteps < 0 then 0 else meter.completedSteps)
        && rows[id].meter.totalSteps == (if meter.totalSteps < 1 then 1 else meter.totalSteps)
        && rows == old(rows)[id := old(rows)[id].(meter := rows[id].meter, result := rows[id].result)]
    {
      hide StoreInv, StoreEvolves;
      ghost var before := View();
      ApplyFacts(before, OpProgress(id, agent, meter, result));
      if id !in rows || rows[id].agent != agent || !rows[id].status.Running? { return None; }
      rows := rows[id := rows[id].(meter := Clamp(meter), result := Coalesce(result, rows[id].result))];
      row := Some(rows[id]);
    }

    method AbortAgentTask(id: TaskId, error: Note) returns (aborted: bool)
      requires Valid()
      modifies this
      ensures Valid() && View() == Abort(old(View()), id, error)
      ensures aborted <==> AbortReply(old(View()), id)
      ensures aborted <==> id in old(rows) && (old(rows)[id].status == Queued || old(rows)[id].status == Running)
      ensures !aborted ==> rows == old(rows) && secrets == old(secrets)
      ensures aborted ==>
        && rows == old(rows)[id := old(rows)[id].(status := Cancelled, error := Some(error))]
        && secrets == old(secrets) - {id}
    {
      hide StoreInv, StoreEvolves;
      ghost var before := View();
      ApplyFacts(before, OpAbort(id, error));
      if id !in rows || !rows[id].status.Live() { return false; }
      rows := rows[id := rows[id].(status := Cancelled, error := Some(error))];
      secrets := secrets - {id};
      aborted := true;
    }

    method CancelQueuedRunTasks(run: RunId) returns (cancelled: nat)
      requires Valid()
      modifies this
      ensures Valid() && View() == CancelQueued(old(View()), run)
      ensures cancelled == |QueuedOfRun(old(View()), run)|
      ensures rows.Keys == old(rows).Keys
      ensures forall id :: id in rows ==>
        if old(rows)[id].run == run && old(rows)[id].status == Queued
        then rows[id] == old(rows)[id].(status := Cancelled, error := Some(ParentCancelled)) else rows[id] == old(rows)[id]
      ensures forall id :: id in secrets <==>
        id in old(secrets) && !(id in old(rows) && old(rows)[id].run == run && old(rows)[id].status == Queued)
    {
      hide StoreInv, StoreEvolves, CancelQueued;
      ghost var before := View();
      ApplyFacts(before, OpCancelQueued(run));
      CancelQueuedIs(before, run);
      var ids := set id | id in rows && rows[id].run == run && rows[id].status.Queued?;
      assert ids == QueuedOfRun(before, run);
      rows := map id | id in rows ::
        if id in ids then rows[id].(status := Cancelled, error := Some(ParentCancelled)) else rows[id];
      cancelled := |ids|;
      DropSecrets(ids);
    }

    method DropSecrets(ids: set<TaskId>)
      modifies this`secrets
      ensures secrets == old(secrets) - ids
    {
      var left := ids;
      while left != {}
        invariant left <= ids && secrets == old(secrets) - (ids - left)
      {
        var id :| id in left;
        secrets := secrets - {id};
        left := left - {id};
      }
      assert ids - left == ids;
    }

    method RecoverIncompleteRuns()
      requires Valid()
      modifies this
      ensures Valid() && View() == Recover(old(View()))
      ensures rows.Keys == old(rows).Keys && secrets == map[]
      ensures forall id :: id in rows ==>
        if old(rows)[id].status == Queued || old(rows)[id].status == Running
        then rows[id] == old(rows)[id].(status := Cancelled, error := Some(ControllerRestarted))
        else rows[id] == old(rows)[id]
    {
      hide StoreInv, StoreEvolves;
      ghost var before := View();
      ApplyFacts(before, OpRecover);
      rows := map id | id in rows ::
        if rows[id].status.Live() then rows[id].(status := Cancelled, error := Some(ControllerRestarted)) else rows[id];
      secrets := map[];
    }
  }
}
