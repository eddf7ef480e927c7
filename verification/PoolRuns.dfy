/**
 Runs of the thread pool in which its promises fail: a timed caller takes a wake-up with it and the
 pool stalls, and an IMMEDIATE destroy strands a caller of wait_idle.
 */
module PoolRuns {
  import opened ThreadPool

  /** A pool with one worker and one place. */
  function Small(queue: seq<Task>, w: Worker, callers: map<nat, Caller>, accepted: seq<Task>, taken: nat, finished: seq<nat>): State {
    State(1, queue, Running, map[0 := w], callers, map[], accepted, taken, finished)
  }

  // ----- a stolen wake-up -----

  function ThreeCallers(a: Caller, b: Caller, c: Caller): map<nat, Caller> {
    map[0 := a, 1 := b, 2 := c]
  }

  /** One task fills the queue. */
  lemma Filled(task: Task, rest: seq<Action>, s: State) returns (acts: seq<Action>)
    requires Run(Small([task], Fresh, map[0 := Returned(Ok)], [task], 0, []), rest, s)
    ensures Run(Small([], Fresh, map[], [], 0, []), acts, s)
  {
    var s0 := Small([], Fresh, map[], [], 0, []);
    var s1 := Small([], Fresh, map[0 := Calling(task, false)], [], 0, []);
    assert WakeWorkers(map[0 := Fresh], {}) == map[0 := Fresh];
    assert s1.callers[0 := Returned(Ok)] == map[0 := Returned(Ok)];
    assert Sleepers(s1.workers) == {} && [] + [task] == [task];
    RunCons(s1, CallerTurn(0, {}), rest, s);
    acts := [CallerTurn(0, {})] + rest;
    RunCons(s0, Call(0, task, false), acts, s);
    acts := [Call(0, task, false)] + acts;
  }

  /** A further caller finds the queue full and sleeps. */
  lemma Sleeps(task: Task, cs: map<nat, Caller>, c: nat, timed: bool, rest: seq<Action>, s: State) returns (acts: seq<Action>)
    requires c !in cs && Run(Small([task], Fresh, cs[c := Blocked(task, timed)], [task], 0, []), rest, s)
    ensures Run(Small([task], Fresh, cs, [task], 0, []), acts, s)
  {
    var s0 := Small([task], Fresh, cs, [task], 0, []);
    var s1 := Small([task], Fresh, cs[c := Calling(task, timed)], [task], 0, []);
    assert Sleepers(s1.workers) == {};
    assert s1.callers[c := Blocked(task, timed)] == cs[c := Blocked(task, timed)];
    RunCons(s1, CallerTurn(c, {}), rest, s);
    acts := [CallerTurn(c, {})] + rest;
    RunCons(s0, Call(c, task, timed), acts, s);
    acts := [Call(c, task, timed)] + acts;
  }

  /** The worker takes the task and signals caller 1. */
  lemma Taken(task: Task)
    ensures var s0 := Small([task], Fresh, ThreeCallers(Returned(Ok), Blocked(task, true), Blocked(task, false)), [task], 0, []);
            && Enabled(s0, WorkerTurn(0, {1}))
            && Apply(s0, WorkerTurn(0, {1}))
               == Small([], Busy(0), ThreeCallers(Returned(Ok), Roused(task, true), Blocked(task, false)), [task], 1, [])
  {
    var s0 := Small([task], Fresh, ThreeCallers(Returned(Ok), Blocked(task, true), Blocked(task, false)), [task], 0, []);
    assert 1 in BlockedCallers(s0.callers);
    assert RouseCallers(s0.callers, {1}) == ThreeCallers(Returned(Ok), Roused(task, true), Blocked(task, false));
    assert AlertWaiters(map[]) == map[] && s0.workers[0 := Busy(0)] == map[0 := Busy(0)];
  }

  /** Its wait reports a timeout all the same. */
  lemma TimesOut(task: Task, rest: seq<Action>, s: State) returns (acts: seq<Action>)
    requires Run(Small([], Busy(0), ThreeCallers(Returned(Ok), Returned(TimedOut), Blocked(task, false)), [task], 1, []), rest, s)
    ensures Run(Small([], Busy(0), ThreeCallers(Returned(Ok), Roused(task, true), Blocked(task, false)), [task], 1, []), acts, s)
  {
    var b := Blocked(task, false);
    var s1 := Small([], Busy(0), ThreeCallers(Returned(Ok), Roused(task, true), b), [task], 1, []);
    var s2 := Small([], Busy(0), ThreeCallers(Returned(Ok), Expired, b), [task], 1, []);
    Second(Returned(Ok), Expired, b, Returned(TimedOut));
    Second(Returned(Ok), Roused(task, true), b, Expired);
    RunCons(s2, GiveUp(1), rest, s);
    acts := [GiveUp(1)] + rest;
    RunCons(s1, Expire(1), acts, s);
    acts := [Expire(1)] + acts;
  }

  lemma Second(a: Caller, b: Caller, c: Caller, b': Caller)
    ensures ThreeCallers(a, b, c)[1 := b'] == ThreeCallers(a, b', c)
  {
  }

  ghost function Stalled(task: Task): State {
    Small([], Asleep, ThreeCallers(Returned(Ok), Returned(TimedOut), Blocked(task, false)), [task], 1, [0])
  }

  /** The task ends and the worker falls asleep on the empty queue. */
  lemma WorkerSleeps(task: Task) returns (acts: seq<Action>)
    ensures Run(Small([], Busy(0), ThreeCallers(Returned(Ok), Returned(TimedOut), Blocked(task, false)), [task], 1, []), acts, Stalled(task))
  {
    var cs := ThreeCallers(Returned(Ok), Returned(TimedOut), Blocked(task, false));
    var s0 := Small([], Busy(0), cs, [task], 1, []);
    var s1 := Small([], Fresh, cs, [task], 1, [0]);
    var s2 := Stalled(task);
    assert 2 in BlockedCallers(cs);
    assert s0.workers[0 := Fresh] == s1.workers && s1.workers[0 := Asleep] == s2.workers && [] + [0] == [0];
    RunCons(s1, WorkerTurn(0, {2}), [], s2);
    acts := [WorkerTurn(0, {2})] + [];
    RunCons(s0, Finish(0), acts, s2);
    acts := [Finish(0)] + acts;
  }

  /** Only a new call, destroy or a spurious wake-up can still happen. */
  lemma NothingMoves(task: Task)
    ensures var s := Stalled(task);
            && s.phase.Running? && s.queue == [] && 2 in BlockedCallers(s.callers) && RousedCallers(s.callers) == {}
            && forall a :: Enabled(s, a) ==> a.Call? || a.Ask? || a.Destroy? || a.SpuriousWorker? || a.SpuriousCaller?
  {
  }

  /**
   A run from a new pool that loses a wake-up: at its end the queue is empty, the worker sleeps and a caller
   of add sleeps beside the free place, and nothing but a new call, destroy or a spurious wake-up can happen.
   */
  lemma StolenWakeupStalls(task: Task) returns (s0: State, acts: seq<Action>, s: State)
    ensures Init(s0) && Run(s0, acts, s)
    ensures s.phase.Running? && s.queue == [] && 2 in BlockedCallers(s.callers) && RousedCallers(s.callers) == {}
    ensures forall a :: Enabled(s, a) ==> a.Call? || a.Ask? || a.Destroy? || a.SpuriousWorker? || a.SpuriousCaller?
  {
    s0, s := Small([], Fresh, map[], [], 0, []), Stalled(task);
    assert 0 in s0.workers;
    NothingMoves(task);
    var one := map[0 := Returned(Ok)];
    acts := WorkerSleeps(task);
    acts := FromFull(task, acts, s);
    acts := Sleeps(task, one[1 := Blocked(task, true)], 2, false, acts, s);
    acts := Sleeps(task, one, 1, true, acts, s);
    acts := Filled(task, acts, s);
  }

  lemma FromFull(task: Task, rest: seq<Action>, s: State) returns (acts: seq<Action>)
    requires Run(Small([], Busy(0), ThreeCallers(Returned(Ok), Returned(TimedOut), Blocked(task, false)), [task], 1, []), rest, s)
    ensures Run(Small([task], Fresh, map[0 := Returned(Ok)][1 := Blocked(task, true)][2 := Blocked(task, false)], [task], 0, []), acts, s)
  {
    acts := TimesOut(task, rest, s);
    Taken(task);
    var cs := ThreeCallers(Returned(Ok), Blocked(task, true), Blocked(task, false));
    assert cs == map[0 := Returned(Ok)][1 := Blocked(task, true)][2 := Blocked(task, false)];
    RunCons(Small([task], Fresh, cs, [task], 0, []), WorkerTurn(0, {1}), acts, s);
    acts := [WorkerTurn(0, {1})] + acts;
  }

  // ----- a stranded waiter -----

  function Waiting1(queue: seq<Task>, phase: Phase, w: Worker, waiters: map<nat, Waiter>): State
    requires queue != []
  {
    State(1, queue, phase, map[0 := w], map[0 := Returned(Ok)], waiters, queue, 0, [])
  }

  /** Asking, waiting, destroy, and the worker leaves. */
  lemma LeftWaiting(task: Task) returns (acts: seq<Action>)
    ensures Run(Waiting1([task], Running, Fresh, map[]), acts, Waiting1([task], Closing(Immediate), Exited, map[0 := Waiting]))
  {
    var s0 := Waiting1([task], Running, Fresh, map[]);
    var s1 := Waiting1([task], Running, Fresh, map[0 := Asking]);
    var s2 := Waiting1([task], Running, Fresh, map[0 := Waiting]);
    var s3 := Waiting1([task], Closing(Immediate), Fresh, map[0 := Waiting]);
    var s4 := Waiting1([task], Closing(Immediate), Exited, map[0 := Waiting]);
    assert Sleepers(s2.workers) == {} && BlockedCallers(s2.callers) == {};
    assert WakeWorkers(s2.workers, {}) == s2.workers && RouseCallers(s2.callers, {}) == s2.callers;
    assert s3.workers[0 := Exited] == s4.workers && s1.waiters[0 := Waiting] == s2.waiters;
    RunCons(s3, WorkerTurn(0, {}), [], s4);
    acts := [WorkerTurn(0, {})] + [];
    RunCons(s2, Destroy(Immediate), acts, s4);
    acts := [Destroy(Immediate)] + acts;
    RunCons(s1, WaiterTurn(0), acts, s4);
    acts := [WaiterTurn(0)] + acts;
    RunCons(s0, Ask(0), acts, s4);
    acts := [Ask(0)] + acts;
  }

  /** A run from a new pool in which an IMMEDIATE destroy has let all workers go and a caller of wait_idle still sleeps. */
  lemma WaiterIsStranded(task: Task) returns (s0: State, acts: seq<Action>, s: State)
    ensures Init(s0) && Run(s0, acts, s)
    ensures s.phase == Closing(Immediate) && AllExited(s) && s.queue == [task] && s.waiters == map[0 := Waiting]
  {
    s0 := Small([], Fresh, map[], [], 0, []);
    assert 0 in s0.workers;
    s := Waiting1([task], Closing(Immediate), Exited, map[0 := Waiting]);
    acts := LeftWaiting(task);
    acts := Filled(task, acts, s);
  }
}
