/**
  The two polling loops that wait for an Agent task: `wait_task` of the database
  and web runs, and the network run's own `_wait_task`, which differs in one row
  status. The environment is a function from the poll number to what that poll
  observes; sleeping a quarter of a second between polls is what bounds it.
 */
module Waiting {
  import opened Wrappers
  import opened TaskStore

  const POLL_SECONDS := 0.25

  /** One turn of the loop: the job context, the row (None when it is gone), and the clock. */
  datatype Poll = Poll(stopped: bool, row: Option<Status>, elapsed: real)

  datatype Verdict = Returned | TaskFailed | TaskCancelled | TimedOut | Disappeared | RunStopped

  datatype Waiter = Distributed(hasContext: bool) | Network {
    predicate ObeysContext() { Network? || hasContext }
  }

  /** What one turn of the loop does; None means it sleeps and polls again. */
  function Decide(w: Waiter, p: Poll, timeout: real): Option<Verdict> {
    if w.ObeysContext() && p.stopped then Some(RunStopped)
    else if p.row.None? then Some(Disappeared)
    else if p.row.value == Completed then Some(Returned)
    else if p.row.value == Failed then Some(TaskFailed)
    else if p.row.value == Cancelled && w.Distributed? then Some(TaskCancelled)
    else if p.elapsed > timeout then Some(TimedOut)
    else None
  }

  /** The clock moves on by at least the sleep between two polls. */
  ghost predicate Ticks(view: nat -> Poll) {
    forall k: nat :: view(k).elapsed >= k as real * POLL_SECONDS
  }

  /** `k` is the first poll at which the loop ends. */
  ghost predicate EndsAt(w: Waiter, view: nat -> Poll, timeout: real, k: nat, v: Verdict) {
    && Decide(w, view(k), timeout) == Some(v)
    && forall j: nat :: j < k ==> Decide(w, view(j), timeout) == None
  }

  /** A poll of the distributed wait that goes on: an unstopped run, a live row, time left. */
  predicate GoesOn(p: Poll, hasContext: bool, timeout: real) {
    && !(hasContext && p.stopped) && p.row.Some? && (p.row.value == Queued || p.row.value == Running)
    && p.elapsed <= timeout
  }

  /** The same for the network wait, which takes a cancelled row for a live one. */
  predicate NetworkGoesOn(p: Poll, timeout: real) {
    && !p.stopped && p.row.Some? && (p.row.value == Queued || p.row.value == Running || p.row.value == Cancelled)
    && p.elapsed <= timeout
  }

  /** The last poll a wait can need. */
  function LastPoll(timeout: real): nat {
    if timeout < 0.0 then 0 else (timeout * 4.0).Floor + 1
  }

  lemma LastPollIsLate(view: nat -> Poll, timeout: real, k: nat)
    requires Ticks(view) && k >= LastPoll(timeout)
    ensures view(k).elapsed > timeout
  {
    assert view(k).elapsed >= k as real * POLL_SECONDS;
    if timeout >= 0.0 {
      assert (timeout * 4.0) < (timeout * 4.0).Floor as real + 1.0;
      assert k as real > timeout * 4.0;
    }
  }

  /** `distributed.wait_task`; it always ends, and within the quarter-second budget. */
  method WaitTask(view: nat -> Poll, timeout: real, hasContext: bool) returns (v: Verdict, k: nat)
    requires Ticks(view)
    ensures EndsAt(Distributed(hasContext), view, timeout, k, v)
    ensures k <= LastPoll(timeout)
    ensures forall j: nat :: j < k ==> GoesOn(view(j), hasContext, timeout)
    ensures v == RunStopped <==> hasContext && view(k).stopped
    ensures v != RunStopped ==> (v == Disappeared <==> view(k).row == None)
    ensures v != RunStopped ==> (v == Returned <==> view(k).row == Some(Completed))
    ensures v != RunStopped ==> (v == TaskFailed <==> view(k).row == Some(Failed))
    ensures v != RunStopped ==> (v == TaskCancelled <==> view(k).row == Some(Cancelled))
    ensures v == TimedOut ==> view(k).row in {Some(Queued), Some(Running)} && view(k).elapsed > timeout
  {
    k := 0;
    while true
      invariant k <= LastPoll(timeout)
      invariant forall j: nat :: j < k ==> Decide(Distributed(hasContext), view(j), timeout) == None
      decreases LastPoll(timeout) - k
    {
      var poll := view(k);
      if hasContext && poll.stopped { return RunStopped, k; }
      if poll.row.None? { return Disappeared, k; }
      if poll.row.value == Completed { return Returned, k; }
      if poll.row.value == Failed { return TaskFailed, k; }
      if poll.row.value == Cancelled { return TaskCancelled, k; }
      if poll.elapsed > timeout { return TimedOut, k; }
      if k == LastPoll(timeout) { LastPollIsLate(view, timeout, k); }
      k := k + 1;
    }
  }

  /** `network._wait_task`: a cancelled row is not an end. */
  method WaitNetworkTask(view: nat -> Poll, timeout: real) returns (v: Verdict, k: nat)
    requires Ticks(view)
    ensures EndsAt(Network, view, timeout, k, v)
    ensures k <= LastPoll(timeout)
    ensures v != TaskCancelled
    ensures forall j: nat :: j < k ==> NetworkGoesOn(view(j), timeout)
    ensures v == RunStopped <==> view(k).stopped
    ensures v != RunStopped ==> (v == Disappeared <==> view(k).row == None)
    ensures v != RunStopped ==> (v == Returned <==> view(k).row == Some(Completed))
    ensures v != RunStopped ==> (v == TaskFailed <==> view(k).row == Some(Failed))
    ensures v == TimedOut ==> view(k).row in {Some(Queued), Some(Running), Some(Cancelled)} && view(k).elapsed > timeout
  {
    k := 0;
    while true
      invariant k <= LastPoll(timeout)
      invariant forall j: nat :: j < k ==> Decide(Network, view(j), timeout) == None
      decreases LastPoll(timeout) - k
    {
      var poll := view(k);
      if poll.stopped { return RunStopped, k; }
      if poll.row.None? { return Disappeared, k; }
      if poll.row.value == Completed { return Returned, k; }
      if poll.row.value == Failed { return TaskFailed, k; }
      if poll.elapsed > timeout { return TimedOut, k; }
      if k == LastPoll(timeout) { LastPollIsLate(view, timeout, k); }
      k := k + 1;
    }
  }

  /** Poll `c` shows a cancelled row to a run that is not stopped, and nothing before it was decisive. */
  ghost predicate CancelledAt(view: nat -> Poll, timeout: real, c: nat) {
    && view(c).row == Some(Cancelled) && !view(c).stopped
    && forall j: nat :: j < c ==>
         !view(j).stopped && view(j).row.Some? && view(j).row.value.Live() && view(j).elapsed <= timeout
  }

  /**
    On the same observations the two loops end at the same poll with the same
    verdict exactly when no poll shows a cancelled row to a run that is still live,
    unstopped and within its timeout.
   */
  lemma WaitsAgreeUnlessCancelled(
      view: nat -> Poll, timeout: real, k: nat, v: Verdict, k': nat, v': Verdict)
    requires EndsAt(Distributed(true), view, timeout, k, v)
    requires EndsAt(Network, view, timeout, k', v')
    ensures k <= k'
    ensures (k == k' && v == v') <==> !exists c :: CancelledAt(view, timeout, c)
  {
    NetworkEndsLater(view, timeout, k, v, k', v');
    if v == TaskCancelled {
      forall j: nat | j < k
        ensures !view(j).stopped && view(j).row.Some? && view(j).row.value.Live() && view(j).elapsed <= timeout
      {
        assert Decide(Distributed(true), view(j), timeout) == None;
      }
      assert CancelledAt(view, timeout, k);
    }
    if c :| CancelledAt(view, timeout, c) {
      assert Decide(Distributed(true), view(c), timeout) == Some(TaskCancelled);
      assert forall j: nat :: j < c ==> Decide(Distributed(true), view(j), timeout) == None;
      assert c == k;
    }
  }

  lemma NetworkEndsLater(view: nat -> Poll, timeout: real, k: nat, v: Verdict, k': nat, v': Verdict)
    requires EndsAt(Distributed(true), view, timeout, k, v)
    requires EndsAt(Network, view, timeout, k', v')
    ensures k <= k' && ((k == k' && v == v') <==> v != TaskCancelled)
  {
    assert forall p: Poll :: Decide(Network, p, timeout).Some? ==> Decide(Distributed(true), p, timeout).Some?;
    assert Decide(Distributed(true), view(k'), timeout).Some?;
    if v != TaskCancelled {
      assert Decide(Network, view(k), timeout) == Some(v);
    }
  }

  /** A task that was cancelled before the first poll, seen every quarter of a second. */
  function CancelledView(): nat -> Poll { (n: nat) => Poll(false, Some(Cancelled), n as real * POLL_SECONDS) }

  /** With a timeout of one second the distributed wait ends at once, the network wait at the sixth poll. */
  lemma WaitsDiffer()
    ensures Ticks(CancelledView()) && CancelledAt(CancelledView(), 1.0, 0)
    ensures EndsAt(Distributed(true), CancelledView(), 1.0, 0, TaskCancelled)
    ensures EndsAt(Network, CancelledView(), 1.0, 5, TimedOut)
  {
    var view := CancelledView();
    assert view(5).elapsed == 1.25;
    forall j: nat | j < 5 ensures Decide(Network, view(j), 1.0) == None {
      assert view(j).elapsed <= 4.0 * POLL_SECONDS;
    }
  }

  /** Task rows never leave a terminal status. */
  ghost predicate RowAbsorbing(view: nat -> Poll) {
    forall j: nat, k: nat :: j <= k && view(j).row.Some? && view(j).row.value.Terminal() ==> view(k).row == view(j).row
  }

  /** A cancelled task holds the network run until the run is stopped or the whole timeout has passed. */
  lemma CancelledTaskWaitsOut(view: nat -> Poll, timeout: real, k: nat, k': nat, v': Verdict)
    requires RowAbsorbing(view)
    requires EndsAt(Distributed(true), view, timeout, k, TaskCancelled)
    requires EndsAt(Network, view, timeout, k', v')
    ensures v' == RunStopped || v' == TimedOut
    ensures v' == TimedOut <==> !view(k').stopped && view(k').elapsed > timeout
    ensures forall j: nat :: k <= j < k' ==> !view(j).stopped && view(j).elapsed <= timeout
  {
    NetworkEndsLater(view, timeout, k, TaskCancelled, k', v');
    assert view(k).row == Some(Cancelled);
    assert view(k').row == Some(Cancelled);
    forall j: nat | k <= j < k' ensures !view(j).stopped && view(j).elapsed <= timeout {
      assert view(j).row == Some(Cancelled);
      assert Decide(Network, view(j), timeout) == None;
    }
  }
}
