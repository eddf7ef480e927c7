/**
 Shutdown of the thread pool ends: once destroy has set its flag, every turn of a worker uses up
 part of a bounded amount of work, and until all workers have left some worker can take a turn.
 So the joins of destroy return, if the tasks do and the scheduler is fair.
 */
module PoolShutdown {
  import opened ThreadPool

  ghost function Alive(ws: map<nat, Worker>): set<nat> { set w | w in ws && !ws[w].Exited? }
  ghost function BusyOnes(ws: map<nat, Worker>): set<nat> { set w | w in ws && ws[w].Busy? }

  /** What the workers still have to do: take and run each queued task, finish the running ones, leave. */
  ghost function Work(s: State): nat {
    2 * |s.queue| + |Alive(s.workers)| + |BusyOnes(s.workers)|
  }

  predicate ByWorker(a: Action) {
    a.WorkerTurn? || a.Finish?
  }

  lemma MoveAlive(ws: map<nat, Worker>, w: nat, x: Worker)
    requires w in ws
    ensures |Alive(ws[w := x])| == |Alive(ws)| - (if ws[w].Exited? then 0 else 1) + (if x.Exited? then 0 else 1)
  {
    DropOne(Alive(ws), w);
    if x.Exited? { assert Alive(ws[w := x]) == Alive(ws) - {w}; } else { assert Alive(ws[w := x]) == Alive(ws) + {w}; }
  }

  lemma MoveBusy(ws: map<nat, Worker>, w: nat, x: Worker)
    requires w in ws
    ensures |BusyOnes(ws[w := x])| == |BusyOnes(ws)| - (if ws[w].Busy? then 1 else 0) + (if x.Busy? then 1 else 0)
  {
    DropOne(BusyOnes(ws), w);
    if x.Busy? { assert BusyOnes(ws[w := x]) == BusyOnes(ws) + {w}; } else { assert BusyOnes(ws[w := x]) == BusyOnes(ws) - {w}; }
  }

  /** After shutdown no step adds work, and every step of a worker uses some up. */
  lemma WorkShrinks(s: State, a: Action)
    requires Inv(s) && s.phase.Closing? && Enabled(s, a)
    ensures var s' := Apply(s, a);
            s'.phase == s.phase && Work(s') <= Work(s) - if ByWorker(a) then 1 else 0
  {
    match a
    case WorkerTurn(w, _) =>
      MoveAlive(s.workers, w, Exited);
      MoveBusy(s.workers, w, Exited);
      MoveAlive(s.workers, w, Busy(s.taken));
      MoveBusy(s.workers, w, Busy(s.taken));
    case Finish(w) =>
      MoveAlive(s.workers, w, Fresh);
      MoveBusy(s.workers, w, Fresh);
    case SpuriousWorker(w) => assert w in Sleepers(s.workers);
    case CallerTurn(_, _) =>
    case Call(_, _, _) =>
    case Expire(_) =>
    case GiveUp(_) =>
    case Ask(_) =>
    case WaiterTurn(_) =>
    case SpuriousCaller(_) =>
    case SpuriousWaiter(_) =>
  }

  /** How many of the steps are a worker's. */
  function WorkerSteps(acts: seq<Action>): nat {
    if acts == [] then 0 else (if ByWorker(acts[0]) then 1 else 0) + WorkerSteps(acts[1..])
  }

  lemma {:induction false} WorkerStepsBound(s: State, acts: seq<Action>, s': State)
    requires Inv(s) && s.phase.Closing? && Run(s, acts, s')
    ensures WorkerSteps(acts) + Work(s') <= Work(s) && s'.phase == s.phase
    decreases |acts|
  {
    if acts != [] {
      WorkShrinks(s, acts[0]);
      InvStep(s, acts[0]);
      WorkerStepsBound(Apply(s, acts[0]), acts[1..], s');
    }
  }

  /** A worker that is awake can take its turn. */
  lemma AwakeCanMove(s: State, w: nat)
    requires w in s.workers && !s.workers[w].Asleep? && !s.workers[w].Exited?
    ensures exists a :: ByWorker(a) && Enabled(s, a)
  {
    if s.workers[w].Busy? {
      assert Enabled(s, Finish(w));
    } else {
      assert Enabled(s, WorkerTurn(w, BlockedCallers(s.callers)));
    }
  }

  /** After shutdown the workers are stuck exactly when all have left. */
  lemma OnlyLeftIsStuck(s: State)
    requires Inv(s) && s.phase.Closing?
    ensures AllExited(s) <==> !exists a :: ByWorker(a) && Enabled(s, a)
  {
    if w :| w in s.workers && !s.workers[w].Exited? {
      assert w !in Sleepers(s.workers);
      AwakeCanMove(s, w);
    }
  }

  /**
   In every run that goes on after destroy has set its flag, the workers take at most
   2 * queued + 2 * threads turns, and as long as one of them has not left, one of them can move.
   */
  lemma ShutdownEnds(s0: State, before: seq<Action>, s: State, acts: seq<Action>, s': State)
    requires Init(s0) && Run(s0, before, s) && s.phase.Closing? && Run(s, acts, s')
    ensures WorkerSteps(acts) <= 2 * |s.queue| + 2 * |s.workers|
    ensures AllExited(s') <==> !exists a :: ByWorker(a) && Enabled(s', a)
  {
    InvInit(s0);
    InvRun(s0, before, s);
    InvRun(s, acts, s');
    WorkerStepsBound(s, acts, s');
    Within(s.workers);
    OnlyLeftIsStuck(s');
  }

  lemma Within(ws: map<nat, Worker>)
    ensures |Alive(ws)| <= |ws| && |BusyOnes(ws)| <= |ws|
  {
    assert Alive(ws) <= ws.Keys && BusyOnes(ws) <= ws.Keys;
    SubsetSize(Alive(ws), ws.Keys);
    SubsetSize(BusyOnes(ws), ws.Keys);
  }

  lemma {:induction false} SubsetSize(a: set<nat>, b: set<nat>)
    requires a <= b
    ensures |a| <= |b|
  {
    assert b == a + (b - a);
  }

  /** Before shutdown a queued task is never left to sleeping workers: one of them can move. */
  lemma QueuedTaskCanMove(s0: State, acts: seq<Action>, s: State)
    requires Init(s0) && Run(s0, acts, s) && s.phase.Running? && s.queue != []
    ensures exists a :: ByWorker(a) && Enabled(s, a)
  {
    NeverStalls(s0, acts, s);
    InvInit(s0);
    InvRun(s0, acts, s);
    var w :| w in s.workers && !s.workers[w].Asleep?;
    AwakeCanMove(s, w);
  }

  // ----- callers of wait_idle during shutdown -----

  /** The waiter has returned, or does so at its next turn. */
  ghost predicate Leaves(s: State, i: nat)
    requires i in s.waiters
  {
    s.waiters[i].Released? || (Enabled(s, WaiterTurn(i)) && Apply(s, WaiterTurn(i)).waiters[i].Released?)
  }

  /**
   After IMMEDIATE the queue never changes again: in every state from then on, a caller of wait_idle that has not
   returned by then leaves exactly if the queue is empty.
   */
  lemma WaiterLeavesIffEmpty(s: State, acts: seq<Action>, s': State, i: nat)
    requires Inv(s) && s.phase == Closing(Immediate) && Run(s, acts, s') && i in s.waiters && !s.waiters[i].Released?
    ensures s'.queue == s.queue && i in s'.waiters && (Leaves(s', i) <==> s.queue == [])
  {
    ImmediateStrandsWaiters(s, acts, s', i);
    InvRun(s, acts, s');
  }

  lemma {:induction false} ImmediateStrandsWaiters(s: State, acts: seq<Action>, s': State, i: nat)
    requires Inv(s) && s.phase == Closing(Immediate) && Run(s, acts, s') && i in s.waiters && !s.waiters[i].Released?
    ensures s'.queue == s.queue && i in s'.waiters && (s.queue != [] ==> !s'.waiters[i].Released?)
    decreases |acts|
  {
    if acts != [] {
      var s1 := Apply(s, acts[0]);
      InvStep(s, acts[0]);
      assert s1.queue == s.queue && s1.phase == s.phase && i in s1.waiters;
      if s1.waiters[i].Released? {
        ImmediateKeepsQueue(s1, acts[1..], s', i);
      } else {
        ImmediateStrandsWaiters(s1, acts[1..], s', i);
      }
    }
  }

  lemma {:induction false} ImmediateKeepsQueue(s: State, acts: seq<Action>, s': State, i: nat)
    requires s.phase == Closing(Immediate) && Run(s, acts, s') && i in s.waiters
    ensures s'.queue == s.queue && i in s'.waiters
    decreases |acts|
  {
    if acts != [] { ImmediateKeepsQueue(Apply(s, acts[0]), acts[1..], s', i); }
  }

  /** After GRACEFUL has let all workers go, no waiter sleeps and each is released by its next turn. */
  lemma GracefulFreesWaiters(s0: State, acts: seq<Action>, s: State, i: nat)
    requires Init(s0) && Run(s0, acts, s) && s.phase == Closing(Graceful) && AllExited(s) && i in s.waiters
    ensures Leaves(s, i)
  {
    GracefulRunsEverything(s0, acts, s);
    InvInit(s0);
    InvRun(s0, acts, s);
  }

  /** No caller of add sleeps after shutdown; each leaves with an answer at its next turn. */
  lemma ShutdownFreesCallers(s0: State, acts: seq<Action>, s: State, c: nat)
    requires Init(s0) && Run(s0, acts, s) && s.phase.Closing? && c in s.callers
    ensures s.callers[c].Returned? || exists a :: Enabled(s, a) && Apply(s, a).callers[c].Returned?
  {
    InvInit(s0);
    InvRun(s0, acts, s);
    assert c !in BlockedCallers(s.callers);
    if s.callers[c].Expired? {
      assert Apply(s, GiveUp(c)).callers[c].Returned?;
    } else if !s.callers[c].Returned? {
      var a := CallerTurn(c, Sleepers(s.workers));
      assert Enabled(s, a) && Apply(s, a).callers[c].Returned?;
    }
  }
}
