/** What an `AgentWorker` remembers, as a value, and what each part of `once` does to it. */
module WorkerState {
  import opened Wrappers
  import opened TaskStore

  /** SERVICE_CONTROLLER_CONTACT_TIMEOUT_SECONDS */
  const CONTACT_TIMEOUT := 20

  /** The four `active_*_servers` maps; each entry is a service's deadline. */
  datatype Services = Services(
    database: map<TaskId, int>, web: map<TaskId, int>, redis: map<TaskId, int>, mysql: map<TaskId, int>)
  {
    function Of(kind: Service): map<TaskId, int> {
      match kind
      case Postgres => database
      case Redis => redis
      case MySql => mysql
      case Web => web
    }

    function With(kind: Service, entries: map<TaskId, int>): Services {
      match kind
      case Postgres => this.(database := entries)
      case Redis => this.(redis := entries)
      case MySql => this.(mysql := entries)
      case Web => this.(web := entries)
    }

    predicate NoneActive() { database == map[] && web == map[] && redis == map[] && mysql == map[] }

    function Total(): nat { |database| + |web| + |redis| + |mysql| }
  }

  datatype Completion = Completion(status: Status, result: Option<Doc>, error: Option<Note>)

  datatype Phase = Idle | Executing(task: TaskId, secret: Option<Secret>) | Halted

  datatype Worker = Worker(
    phase: Phase, pending: map<TaskId, Completion>, services: Services, lastContact: int)

  const NO_SERVICES := Services(map[], map[], map[], map[])

  /** What running a task's handler may turn out to do. `Crash` is an exception `once` does not catch. */
  datatype Outcome =
    | Success(result: Option<Doc>, lifetime: int)
    | Failure(cancelled: bool, result: Option<Doc>, error: Option<Note>)
    | Crash(removed: bool)

  /** The services after a handler ran: a start is refused while any paired service is active. */
  function ServicesAfter(sv: Services, id: TaskId, work: Work, now: int, out: Outcome): Services {
    match work
    case ServiceStart(kind) =>
      if out.Success? && sv.NoneActive() then sv.With(kind, sv.Of(kind)[id := now + out.lifetime]) else sv
    case ServiceStop(kind, server) =>
      if out.Success? || (out.Crash? && out.removed) then sv.With(kind, sv.Of(kind) - {server}) else sv
    case _ => sv
  }

  function CompletionOf(sv: Services, work: Work, out: Outcome): Option<Completion> {
    match out
    case Success(result, _) =>
      if work.ServiceStart? && !sv.NoneActive()
      then Some(Completion(Failed, None, Some(Reported(0))))
      else Some(Completion(Completed, result, None))
    case Failure(cancelled, result, error) =>
      Some(Completion(if cancelled then Cancelled else Failed, result, error))
    case Crash(_) => None
  }

  predicate ContactExpired(lastContact: int, now: int) { now - lastContact > CONTACT_TIMEOUT }

  /** The entries `_cleanup_expired` leaves when it manages to stop those in `stopped`. */
  function Surviving(entries: map<TaskId, int>, now: int, lost: bool, stopped: set<TaskId>): map<TaskId, int> {
    map id | id in entries && !((now >= entries[id] || lost) && id in stopped) :: entries[id]
  }

  function Tidied(sv: Services, now: int, lost: bool, stopped: set<TaskId>): Services {
    Services(Surviving(sv.database, now, lost, stopped), Surviving(sv.web, now, lost, stopped),
             Surviving(sv.redis, now, lost, stopped), Surviving(sv.mysql, now, lost, stopped))
  }

  /** Naming tasks that are not in the map changes nothing about what survives. */
  lemma SurvivingNarrow(entries: map<TaskId, int>, now: int, lost: bool, stopped: set<TaskId>)
    requires entries.Keys <= stopped
    ensures Surviving(entries, now, lost, stopped) == Surviving(entries, now, lost, entries.Keys)
  {
  }

  lemma SubmapSmaller(small: map<TaskId, int>, big: map<TaskId, int>)
    requires small.Keys <= big.Keys
    ensures |small| <= |big|
  {
    assert |small| == |small.Keys| && |big| == |big.Keys|;
    SubsetSmaller(small.Keys, big.Keys);
  }

  lemma {:induction false} SubsetSmaller(small: set<TaskId>, big: set<TaskId>)
    requires small <= big
    ensures |small| <= |big|
  {
    assert big == small + (big - small);
  }

  lemma TotalWith(sv: Services, kind: Service, entries: map<TaskId, int>)
    ensures sv.With(kind, entries).Total() + |sv.Of(kind)| == sv.Total() + |entries|
    ensures sv.NoneActive() ==> sv.Total() == |sv.Of(kind)| == 0
  {
  }

  /** Tidying and stopping never add a service, and a start succeeds only when none is active. */
  lemma TotalAfter(sv: Services, id: TaskId, work: Work, now: int, out: Outcome)
    requires sv.Total() <= 1
    ensures ServicesAfter(sv, id, work, now, out).Total() <= 1
  {
    hide Services.With, Services.Of, Services.Total, Services.NoneActive;
    match work
    case ServiceStart(kind) =>
      var entries := sv.Of(kind);
      if out.Success? { TotalWith(sv, kind, entries[id := now + out.lifetime]); }
    case ServiceStop(kind, server) =>
      var entries := sv.Of(kind);
      TotalWith(sv, kind, entries - {server});
      SubmapSmaller(entries - {server}, entries);
    case _ =>
  }

  lemma TotalTidied(sv: Services, now: int, lost: bool, stopped: set<TaskId>)
    ensures Tidied(sv, now, lost, stopped).Total() <= sv.Total()
  {
    SubmapSmaller(Surviving(sv.database, now, lost, stopped), sv.database);
    SubmapSmaller(Surviving(sv.web, now, lost, stopped), sv.web);
    SubmapSmaller(Surviving(sv.redis, now, lost, stopped), sv.redis);
    SubmapSmaller(Surviving(sv.mysql, now, lost, stopped), sv.mysql);
  }

  /** A service active after a handler ran was active before or is the one just started. */
  lemma ServiceOrigin(sv: Services, id: TaskId, work: Work, now: int, out: Outcome, kind: Service, k: TaskId)
    requires k in ServicesAfter(sv, id, work, now, out).Of(kind)
    ensures k in sv.Of(kind) || (k == id && work == ServiceStart(kind))
  {
  }

  lemma StopRemoves(sv: Services, id: TaskId, kind: Service, server: TaskId, now: int, out: Outcome)
    requires out.Success?
    ensures server !in ServicesAfter(sv, id, ServiceStop(kind, server), now, out).Of(kind)
  {
  }

  /** The worker once a handler has run: the completion waits to be posted. */
  function AfterWork(w: Worker, work: Work, now: int, out: Outcome): Worker
    requires w.phase.Executing?
  {
    var done := CompletionOf(w.services, work, out);
    w.(phase := Idle,
       services := ServicesAfter(w.services, w.phase.task, work, now, out),
       pending := if done.Some? then w.pending[w.phase.task := done.value] else w.pending)
  }
}
