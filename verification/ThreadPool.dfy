/**
 The thread pool of src/base/sys/nv_thread_pool.c as a monitor: every stretch of
 code between taking and releasing the lock is one step, any number of workers,
 callers of `add` and callers of `wait_idle` interleave, and each thread is awake,
 asleep on a condition variable, or woken and on its way back to the lock.

 A signal wakes at least one sleeper if there is one; sleepers may also wake
 without a signal; a timed wait may report a timeout even after it was signalled,
 as POSIX allows, and the signal is then gone.
 */
module ThreadPool {

  datatype Task = Task(code: int, data: int)

  datatype Mode = Graceful | Immediate

  datatype Phase = Running | Closing(mode: Mode)

  datatype Worker =
    | Fresh                 // about to take the lock
    | Asleep                // waiting on not_empty
    | Woken                 // left the wait, about to retake the lock
    | Busy(ticket: nat)     // running the task with that acceptance number
    | Exited

  datatype Code = Ok | Shutdown | TimedOut

  datatype Caller =
    | Calling(task: Task, timed: bool)
    | Blocked(task: Task, timed: bool)  // waiting on not_full
    | Roused(task: Task, timed: bool)
    | Expired
    | Returned(rc: Code)

  datatype Waiter = Asking | Waiting | Alerted | Released

  /** accepted, taken and finished are histories: tickets number the accepted tasks. */
  datatype State = State(
    cap: nat, queue: seq<Task>, phase: Phase,
    workers: map<nat, Worker>, callers: map<nat, Caller>, waiters: map<nat, Waiter>,
    accepted: seq<Task>, taken: nat, finished: seq<nat>)

  datatype Action =
    | WorkerTurn(w: nat, woke: set<nat>)
    | Finish(w: nat)
    | Call(c: nat, task: Task, timed: bool)
    | CallerTurn(c: nat, woke: set<nat>)
    | Expire(c: nat)
    | GiveUp(c: nat)
    | Ask(i: nat)
    | WaiterTurn(i: nat)
    | SpuriousWorker(w: nat)
    | SpuriousCaller(c: nat)
    | SpuriousWaiter(i: nat)
    | Destroy(mode: Mode)

  // ----- condition variables -----

  function Sleepers(ws: map<nat, Worker>): set<nat> { set w | w in ws && ws[w].Asleep? }
  function WokenWorkers(ws: map<nat, Worker>): set<nat> { set w | w in ws && ws[w].Woken? }
  function BlockedCallers(cs: map<nat, Caller>): set<nat> { set c | c in cs && cs[c].Blocked? }
  function RousedCallers(cs: map<nat, Caller>): set<nat> { set c | c in cs && cs[c].Roused? }

  /** A legal outcome of pthread_cond_signal on the given sleepers. */
  predicate Signal(woke: set<nat>, sleepers: set<nat>) {
    woke <= sleepers && (sleepers != {} ==> woke != {})
  }

  function WakeWorkers(ws: map<nat, Worker>, woke: set<nat>): map<nat, Worker> {
    map w | w in ws :: if w in woke && ws[w].Asleep? then Woken else ws[w]
  }

  function Rouse(c: Caller): Caller {
    if c.Blocked? then Roused(c.task, c.timed) else c
  }

  function RouseCallers(cs: map<nat, Caller>, woke: set<nat>): map<nat, Caller> {
    map c | c in cs :: if c in woke then Rouse(cs[c]) else cs[c]
  }

  function AlertWaiters(ws: map<nat, Waiter>): map<nat, Waiter> {
    map i | i in ws :: if ws[i].Waiting? then Alerted else ws[i]
  }

  // ----- the machine -----

  ghost predicate Init(s: State) {
    && s.cap > 0 && s.queue == [] && s.phase == Running
    && s.workers != map[] && (forall w :: w in s.workers ==> s.workers[w] == Fresh)
    && s.callers == map[] && s.waiters == map[]
    && s.accepted == [] && s.taken == 0 && s.finished == []
  }

  predicate Enabled(s: State, a: Action) {
    match a
    case WorkerTurn(w, woke) =>
      && w in s.workers && (s.workers[w].Fresh? || s.workers[w].Woken?)
      && Signal(woke, BlockedCallers(s.callers))
    case Finish(w) => w in s.workers && s.workers[w].Busy?
    case Call(c, _, _) => c !in s.callers
    case CallerTurn(c, woke) =>
      && c in s.callers && (s.callers[c].Calling? || s.callers[c].Roused?)
      && Signal(woke, Sleepers(s.workers))
    case Expire(c) => c in s.callers && (s.callers[c].Blocked? || s.callers[c].Roused?) && s.callers[c].timed
    case GiveUp(c) => c in s.callers && s.callers[c].Expired?
    case Ask(i) => i !in s.waiters
    case WaiterTurn(i) => i in s.waiters && (s.waiters[i].Asking? || s.waiters[i].Alerted?)
    case SpuriousWorker(w) => w in s.workers && s.workers[w].Asleep?
    case SpuriousCaller(c) => c in s.callers && s.callers[c].Blocked?
    case SpuriousWaiter(i) => i in s.waiters && s.waiters[i].Waiting?
    case Destroy(_) => s.phase.Running?
  }

  /** The lock-held part of one turn of nv_threadpool_thread. */
  function WorkerStep(s: State, w: nat, woke: set<nat>): State {
    if s.queue == [] && s.phase.Running? then s.(workers := s.workers[w := Asleep])
    else if s.phase == Closing(Immediate) || s.queue == [] then s.(workers := s.workers[w := Exited])
    else
      s.(queue := s.queue[1..],
         workers := s.workers[w := Busy(s.taken)],
         taken := s.taken + 1,
         waiters := if |s.queue| == 1 then AlertWaiters(s.waiters) else s.waiters,
         callers := RouseCallers(s.callers, woke))
  }

  /** The lock-held part of nv_threadpool_add and nv_threadpool_add_timeout. */
  function CallerStep(s: State, c: nat, woke: set<nat>): State
    requires c in s.callers && (s.callers[c].Calling? || s.callers[c].Roused?)
  {
    var me := s.callers[c];
    if !s.phase.Running? then s.(callers := s.callers[c := Returned(Shutdown)])
    else if |s.queue| == s.cap then s.(callers := s.callers[c := Blocked(me.task, me.timed)])
    else
      s.(queue := s.queue + [me.task],
         accepted := s.accepted + [me.task],
         callers := s.callers[c := Returned(Ok)],
         workers := WakeWorkers(s.workers, woke))
  }

  function Apply(s: State, a: Action): State
    requires Enabled(s, a)
  {
    match a
    case WorkerTurn(w, woke) => WorkerStep(s, w, woke)
    case Finish(w) => s.(workers := s.workers[w := Fresh], finished := s.finished + [s.workers[w].ticket])
    case Call(c, task, timed) => s.(callers := s.callers[c := Calling(task, timed)])
    case CallerTurn(c, woke) => CallerStep(s, c, woke)
    case Expire(c) => s.(callers := s.callers[c := Expired])
    case GiveUp(c) => s.(callers := s.callers[c := Returned(TimedOut)])
    case Ask(i) => s.(waiters := s.waiters[i := Asking])
    case WaiterTurn(i) => s.(waiters := s.waiters[i := if s.queue == [] then Released else Waiting])
    case SpuriousWorker(w) => s.(workers := s.workers[w := Woken])
    case SpuriousCaller(c) => s.(callers := s.callers[c := Rouse(s.callers[c])])
    case SpuriousWaiter(i) => s.(waiters := s.waiters[i := Alerted])
    case Destroy(mode) =>
      s.(phase := Closing(mode),
         workers := WakeWorkers(s.workers, Sleepers(s.workers)),
         callers := RouseCallers(s.callers, BlockedCallers(s.callers)))
  }

  // ----- the invariant -----

  ghost predicate QueueOk(s: State) {
    && 0 < s.cap && |s.queue| <= s.cap
    && s.taken <= |s.accepted| && s.queue == s.accepted[s.taken..]
  }

  /** If a worker sleeps, enough woken ones are on their way for all queued tasks. */
  ghost predicate TasksCovered(ws: map<nat, Worker>, queued: nat) {
    Sleepers(ws) != {} ==> |WokenWorkers(ws)| >= queued
  }

  /** If a caller sleeps, enough woken ones are on their way for all free places. */
  ghost predicate PlacesCovered(cs: map<nat, Caller>, free: int) {
    BlockedCallers(cs) != {} ==> |RousedCallers(cs)| >= free
  }

  /** Nobody waits for an empty queue while it is empty. */
  ghost predicate WaitersOk(ws: map<nat, Waiter>, queued: nat) {
    forall i :: i in ws && ws[i].Waiting? ==> queued > 0
  }

  /** Workers leave only after shutdown, and under GRACEFUL only from an empty queue. */
  ghost predicate ExitsOk(ws: map<nat, Worker>, phase: Phase, queued: nat) {
    forall w :: w in ws && ws[w].Exited? ==> phase.Closing? && (phase.mode.Immediate? || queued == 0)
  }

  ghost predicate Runs(ws: map<nat, Worker>, k: nat) {
    exists w :: w in ws && ws[w] == Busy(k)
  }

  ghost predicate OneRunner(ws: map<nat, Worker>) {
    forall v, w :: v in ws && w in ws && ws[v].Busy? && ws[v] == ws[w] ==> v == w
  }

  /** Every ticket taken is being run or is finished, not both, and finishes once. */
  ghost predicate TicketsOk(ws: map<nat, Worker>, taken: nat, finished: seq<nat>) {
    && (forall k: nat :: k < taken <==> k in finished || Runs(ws, k))
    && (forall k: nat :: Runs(ws, k) ==> k !in finished)
    && (forall i, j :: 0 <= i < j < |finished| ==> finished[i] != finished[j])
  }

  ghost predicate Inv(s: State) {
    && QueueOk(s)
    && (s.phase.Running? ==> TasksCovered(s.workers, |s.queue|))
    && (!s.phase.Running? ==> Sleepers(s.workers) == {} && BlockedCallers(s.callers) == {})
    && WaitersOk(s.waiters, |s.queue|)
    && ExitsOk(s.workers, s.phase, |s.queue|)
    && OneRunner(s.workers) && TicketsOk(s.workers, s.taken, s.finished)
  }

  /** A caller that was woken leaves with a timeout: the wake-up it got is lost to the others. */
  predicate Steals(s: State, a: Action)
    requires Enabled(s, a)
  {
    a.Expire? && s.callers[a.c].Roused?
  }

  /** Sleeping callers are covered for all free places but d. */
  ghost predicate CoveredBut(s: State, d: nat) {
    s.phase.Running? ==> PlacesCovered(s.callers, s.cap - |s.queue| - d)
  }

  // ----- how the sleeping and woken sets move -----

  lemma DropOne(a: set<nat>, w: nat)
    ensures |a - {w}| == |a| - (if w in a then 1 else 0)
    ensures |a + {w}| == |a| + (if w in a then 0 else 1)
  {
    if w in a { assert a == (a - {w}) + {w}; } else { assert a - {w} == a; }
  }

  lemma MoveWorker(ws: map<nat, Worker>, w: nat, x: Worker)
    requires w in ws
    ensures var ws' := ws[w := x];
            && Sleepers(ws') == (if x.Asleep? then Sleepers(ws) + {w} else Sleepers(ws) - {w})
            && |WokenWorkers(ws')| == |WokenWorkers(ws)| - (if ws[w].Woken? then 1 else 0) + (if x.Woken? then 1 else 0)
  {
    var ws' := ws[w := x];
    DropOne(WokenWorkers(ws), w);
    assert Sleepers(ws') == if x.Asleep? then Sleepers(ws) + {w} else Sleepers(ws) - {w};
    assert WokenWorkers(ws') == if x.Woken? then WokenWorkers(ws) + {w} else WokenWorkers(ws) - {w};
  }

  lemma MoveCaller(cs: map<nat, Caller>, c: nat, x: Caller)
    ensures var cs' := cs[c := x];
            && BlockedCallers(cs') == (if x.Blocked? then BlockedCallers(cs) + {c} else BlockedCallers(cs) - {c})
            && |RousedCallers(cs')| == |RousedCallers(cs)| - (if c in cs && cs[c].Roused? then 1 else 0)
                                       + (if x.Roused? then 1 else 0)
  {
    MoveBlocked(cs, c, x);
    MoveRoused(cs, c, x);
    DropOne(RousedCallers(cs), c);
  }

  lemma MoveBlocked(cs: map<nat, Caller>, c: nat, x: Caller)
    ensures BlockedCallers(cs[c := x]) == if x.Blocked? then BlockedCallers(cs) + {c} else BlockedCallers(cs) - {c}
  {
  }

  lemma MoveRoused(cs: map<nat, Caller>, c: nat, x: Caller)
    ensures RousedCallers(cs[c := x]) == if x.Roused? then RousedCallers(cs) + {c} else RousedCallers(cs) - {c}
  {
  }

  lemma WakeWorkersSets(ws: map<nat, Worker>, woke: set<nat>)
    requires woke <= Sleepers(ws)
    ensures var ws' := WakeWorkers(ws, woke);
            Sleepers(ws') == Sleepers(ws) - woke && |WokenWorkers(ws')| == |WokenWorkers(ws)| + |woke|
  {
    var ws' := WakeWorkers(ws, woke);
    assert Sleepers(ws') == Sleepers(ws) - woke;
    assert WokenWorkers(ws') == WokenWorkers(ws) + woke;
    assert WokenWorkers(ws) !! woke;
  }

  lemma RouseCallersSets(cs: map<nat, Caller>, woke: set<nat>)
    requires woke <= BlockedCallers(cs)
    ensures var cs' := RouseCallers(cs, woke);
            && BlockedCallers(cs') == BlockedCallers(cs) - woke
            && |RousedCallers(cs')| == |RousedCallers(cs)| + |woke|
  {
    var cs' := RouseCallers(cs, woke);
    assert BlockedCallers(cs') == BlockedCallers(cs) - woke;
    assert RousedCallers(cs') == RousedCallers(cs) + woke;
    assert RousedCallers(cs) !! woke;
  }

  /** A signal on a covered condition variable covers one more. */
  lemma SignalCovers(ws: map<nat, Worker>, woke: set<nat>, queued: nat)
    requires Signal(woke, Sleepers(ws)) && TasksCovered(ws, queued)
    ensures TasksCovered(WakeWorkers(ws, woke), queued + 1)
  {
    WakeWorkersSets(ws, woke);
    if Sleepers(ws) != {} { assert |woke| >= 1 by { var w :| w in woke; assert woke == (woke - {w}) + {w}; } }
  }

  lemma SignalCoversPlaces(cs: map<nat, Caller>, woke: set<nat>, free: int)
    requires Signal(woke, BlockedCallers(cs)) && PlacesCovered(cs, free)
    ensures PlacesCovered(RouseCallers(cs, woke), free + 1)
  {
    RouseCallersSets(cs, woke);
    if BlockedCallers(cs) != {} { assert |woke| >= 1 by { var c :| c in woke; assert woke == (woke - {c}) + {c}; } }
  }

  // ----- which tickets run -----

  lemma MoveRuns(ws: map<nat, Worker>, w: nat, x: Worker)
    requires w in ws && OneRunner(ws)
    ensures forall k :: Runs(ws[w := x], k) <==> (x == Busy(k) || (ws[w] != Busy(k) && Runs(ws, k)))
  {
    forall k ensures Runs(ws[w := x], k) <==> (x == Busy(k) || (ws[w] != Busy(k) && Runs(ws, k))) {
      if Runs(ws, k) {
        var v :| v in ws && ws[v] == Busy(k);
        assert v != w ==> ws[w := x][v] == Busy(k);
      }
      if x == Busy(k) { assert ws[w := x][w] == Busy(k); }
    }
  }

  lemma QuietRuns(ws: map<nat, Worker>, ws': map<nat, Worker>, taken: nat, finished: seq<nat>)
    requires OneRunner(ws) && TicketsOk(ws, taken, finished) && ws'.Keys == ws.Keys
    requires forall w :: w in ws && (ws[w].Busy? || ws'[w].Busy?) ==> ws'[w] == ws[w]
    ensures OneRunner(ws') && TicketsOk(ws', taken, finished)
  {
    forall k: nat ensures Runs(ws', k) == Runs(ws, k) {
      if Runs(ws, k) { var w :| w in ws && ws[w] == Busy(k); assert ws'[w] == Busy(k); }
      if Runs(ws', k) { var w :| w in ws' && ws'[w] == Busy(k); assert ws[w] == Busy(k); }
    }
  }

  lemma TakeTicket(ws: map<nat, Worker>, w: nat, taken: nat, finished: seq<nat>)
    requires OneRunner(ws) && TicketsOk(ws, taken, finished) && w in ws && !ws[w].Busy?
    ensures OneRunner(ws[w := Busy(taken)]) && TicketsOk(ws[w := Busy(taken)], taken + 1, finished)
  {
    MoveRuns(ws, w, Busy(taken));
    assert !Runs(ws, taken) && taken !in finished;
    assert forall v :: v in ws && ws[v].Busy? ==> Runs(ws, ws[v].ticket);
  }

  lemma FinishTicket(ws: map<nat, Worker>, w: nat, taken: nat, finished: seq<nat>)
    requires OneRunner(ws) && TicketsOk(ws, taken, finished) && w in ws && ws[w].Busy?
    ensures OneRunner(ws[w := Fresh]) && TicketsOk(ws[w := Fresh], taken, finished + [ws[w].ticket])
  {
    MoveRuns(ws, w, Fresh);
    var k := ws[w].ticket;
    assert Runs(ws, k);
    assert forall j: nat :: j in finished + [k] <==> j in finished || j == k;
  }

  // ----- every step keeps the invariant -----

  /** A worker that falls asleep, wakes up or exits. */
  lemma IdleTurn(s: State, w: nat, x: Worker)
    requires Inv(s) && w in s.workers && !s.workers[w].Busy? && !x.Busy?
    requires x.Asleep? ==> s.phase.Running? && s.queue == []
    requires s.workers[w].Woken? && !x.Woken? ==> s.queue == [] || !s.phase.Running?
    requires x.Exited? ==> s.phase.Closing? && (s.phase.mode.Immediate? || s.queue == [])
    ensures Inv(s.(workers := s.workers[w := x]))
  {
    MoveWorker(s.workers, w, x);
    QuietRuns(s.workers, s.workers[w := x], s.taken, s.finished);
  }

  lemma TakeTurn(s: State, w: nat, woke: set<nat>)
    requires Inv(s) && Enabled(s, WorkerTurn(w, woke)) && s.queue != [] && s.phase != Closing(Immediate)
    ensures Inv(WorkerStep(s, w, woke))
  {
    MoveWorker(s.workers, w, Busy(s.taken));
    TakeTicket(s.workers, w, s.taken, s.finished);
    RouseCallersSets(s.callers, woke);
    assert s.accepted[s.taken..][1..] == s.accepted[s.taken + 1..];
  }

  lemma FinishTurn(s: State, w: nat)
    requires Inv(s) && w in s.workers && s.workers[w].Busy?
    ensures Inv(Apply(s, Finish(w)))
  {
    MoveWorker(s.workers, w, Fresh);
    FinishTicket(s.workers, w, s.taken, s.finished);
  }

  /** A caller moves without touching the queue. */
  lemma CallerMoves(s: State, c: nat, x: Caller)
    requires Inv(s)
    requires x.Blocked? ==> s.phase.Running?
    ensures Inv(s.(callers := s.callers[c := x]))
  {
    MoveCaller(s.callers, c, x);
  }

  lemma AddTurn(s: State, c: nat, woke: set<nat>)
    requires Inv(s) && Enabled(s, CallerTurn(c, woke)) && s.phase.Running? && |s.queue| < s.cap
    ensures Inv(CallerStep(s, c, woke))
  {
    MoveCaller(s.callers, c, Returned(Ok));
    SignalCovers(s.workers, woke, |s.queue|);
    QuietRuns(s.workers, WakeWorkers(s.workers, woke), s.taken, s.finished);
  }

  lemma DestroyTurn(s: State, mode: Mode)
    requires Inv(s) && s.phase.Running?
    ensures Inv(Apply(s, Destroy(mode)))
  {
    WakeWorkersSets(s.workers, Sleepers(s.workers));
    RouseCallersSets(s.callers, BlockedCallers(s.callers));
    QuietRuns(s.workers, WakeWorkers(s.workers, Sleepers(s.workers)), s.taken, s.finished);
  }

  lemma InvInit(s: State)
    requires Init(s)
    ensures Inv(s)
  {
    assert Sleepers(s.workers) == {};
    assert forall k: nat :: !Runs(s.workers, k);
  }

  lemma InvStep(s: State, a: Action)
    requires Inv(s) && Enabled(s, a)
    ensures Inv(Apply(s, a)) && Apply(s, a).workers.Keys == s.workers.Keys
  {
    match a
    case WorkerTurn(w, woke) =>
      if s.queue == [] && s.phase.Running? { IdleTurn(s, w, Asleep); }
      else if s.phase == Closing(Immediate) || s.queue == [] { IdleTurn(s, w, Exited); }
      else { TakeTurn(s, w, woke); }
    case Finish(w) => FinishTurn(s, w);
    case CallerTurn(c, woke) =>
      var me := s.callers[c];
      if !s.phase.Running? { CallerMoves(s, c, Returned(Shutdown)); }
      else if |s.queue| == s.cap { CallerMoves(s, c, Blocked(me.task, me.timed)); }
      else { AddTurn(s, c, woke); }
    case Call(c, task, timed) => CallerMoves(s, c, Calling(task, timed));
    case Expire(c) => CallerMoves(s, c, Expired);
    case GiveUp(c) => CallerMoves(s, c, Returned(TimedOut));
    case SpuriousCaller(c) => CallerMoves(s, c, Rouse(s.callers[c]));
    case SpuriousWorker(w) => IdleTurn(s, w, Woken);
    case Destroy(mode) => DestroyTurn(s, mode);
    case Ask(i) =>
    case WaiterTurn(i) =>
    case SpuriousWaiter(i) =>
  }

  /** A step leaves at most one more place uncovered, and only if it steals a wake-up. */
  lemma CoveredStep(s: State, a: Action, d: nat)
    requires Inv(s) && CoveredBut(s, d) && Enabled(s, a)
    ensures CoveredBut(Apply(s, a), d + if Steals(s, a) then 1 else 0)
  {
    match a
    case WorkerTurn(w, woke) =>
      if s.phase.Running? { SignalCoversPlaces(s.callers, woke, s.cap - |s.queue| - d); }
    case CallerTurn(c, woke) =>
      var me := s.callers[c];
      MoveCaller(s.callers, c, Blocked(me.task, me.timed));
      MoveCaller(s.callers, c, Returned(Ok));
    case Call(c, task, timed) => MoveCaller(s.callers, c, Calling(task, timed));
    case Expire(c) => MoveCaller(s.callers, c, Expired);
    case GiveUp(c) => MoveCaller(s.callers, c, Returned(TimedOut));
    case SpuriousCaller(c) => MoveCaller(s.callers, c, Rouse(s.callers[c]));
    case Finish(_) =>
    case SpuriousWorker(_) =>
    case Destroy(_) =>
    case Ask(_) =>
    case WaiterTurn(_) =>
    case SpuriousWaiter(_) =>
  }

  /** A stolen wake-up does no harm exactly if nobody sleeps or more callers are awake than places are free. */
  predicate Spares(s: State) {
    s.phase.Running? ==> BlockedCallers(s.callers) == {} || |RousedCallers(s.callers)| > s.cap - |s.queue|
  }

  lemma StealHarmsIff(s: State, a: Action)
    requires Inv(s) && CoveredBut(s, 0) && Enabled(s, a) && Steals(s, a)
    ensures CoveredBut(Apply(s, a), 0) <==> Spares(s)
  {
    MoveCaller(s.callers, a.c, Expired);
    assert BlockedCallers(s.callers) - {a.c} == BlockedCallers(s.callers);
  }

  // ----- runs -----

  /** How many wake-ups the steps steal. */
  ghost function Stolen(s: State, acts: seq<Action>): nat
    decreases |acts|
  {
    if acts == [] || !Enabled(s, acts[0]) then 0
    else (if Steals(s, acts[0]) then 1 else 0) + Stolen(Apply(s, acts[0]), acts[1..])
  }

  ghost predicate Run(s: State, acts: seq<Action>, s': State)
    decreases |acts|
  {
    if acts == [] then s' == s
    else Enabled(s, acts[0]) && Run(Apply(s, acts[0]), acts[1..], s')
  }

  lemma {:induction false} InvRun(s: State, acts: seq<Action>, s': State)
    requires Inv(s) && Run(s, acts, s')
    ensures Inv(s') && s'.workers.Keys == s.workers.Keys
    decreases |acts|
  {
    if acts != [] {
      InvStep(s, acts[0]);
      InvRun(Apply(s, acts[0]), acts[1..], s');
    }
  }

  lemma {:induction false} CoveredRun(s: State, acts: seq<Action>, s': State, d: nat)
    requires Inv(s) && CoveredBut(s, d) && Run(s, acts, s')
    ensures CoveredBut(s', d + Stolen(s, acts))
    decreases |acts|
  {
    if acts != [] {
      InvStep(s, acts[0]);
      CoveredStep(s, acts[0], d);
      CoveredRun(Apply(s, acts[0]), acts[1..], s', d + if Steals(s, acts[0]) then 1 else 0);
    }
  }

  /**
   Before shutdown, sleeping workers mean that enough woken ones are coming for every queued task, and
   sleeping callers that enough woken ones are coming for every free place, except for one place per
   wake-up that a timed caller took with it. So no wake-up is lost in a run that steals none.
   */
  lemma NoLostWakeups(s0: State, acts: seq<Action>, s: State)
    requires Init(s0) && Run(s0, acts, s) && s.phase.Running?
    ensures Sleepers(s.workers) != {} ==> |WokenWorkers(s.workers)| >= |s.queue|
    ensures BlockedCallers(s.callers) != {} ==> |RousedCallers(s.callers)| + Stolen(s0, acts) >= s.cap - |s.queue|
    ensures forall i :: i in s.waiters && s.waiters[i].Waiting? ==> s.queue != []
  {
    InvInit(s0);
    InvRun(s0, acts, s);
    CoveredRun(s0, acts, s, 0);
  }

  /** Sleeping callers are covered in every state of the run. */
  ghost predicate AlwaysCovered(s: State, acts: seq<Action>)
    decreases |acts|
  {
    CoveredBut(s, 0) && (acts != [] && Enabled(s, acts[0]) ==> AlwaysCovered(Apply(s, acts[0]), acts[1..]))
  }

  /** Whenever the run steals a wake-up, it can be spared. */
  ghost predicate StealsSpared(s: State, acts: seq<Action>)
    decreases |acts|
  {
    acts != [] && Enabled(s, acts[0]) ==> (Steals(s, acts[0]) ==> Spares(s)) && StealsSpared(Apply(s, acts[0]), acts[1..])
  }

  /** Exactly the stolen wake-ups that cannot be spared are lost. */
  lemma {:induction false} LostIffNotSpared(s: State, acts: seq<Action>, s': State)
    requires Inv(s) && CoveredBut(s, 0) && Run(s, acts, s')
    ensures AlwaysCovered(s, acts) <==> StealsSpared(s, acts)
    decreases |acts|
  {
    if acts != [] {
      var s1 := Apply(s, acts[0]);
      InvStep(s, acts[0]);
      CoveredStep(s, acts[0], 0);
      if Steals(s, acts[0]) { StealHarmsIff(s, acts[0]); }
      if CoveredBut(s1, 0) { LostIffNotSpared(s1, acts[1..], s'); }
    }
  }

  ghost predicate Untimed(cs: map<nat, Caller>) {
    forall c :: c in cs && (cs[c].Calling? || cs[c].Blocked? || cs[c].Roused?) ==> !cs[c].timed
  }

  /** Pools used through add, or through add_timeout without a deadline, never lose a wake-up. */
  lemma {:induction false} UntimedNeverSteals(s: State, acts: seq<Action>, s': State)
    requires Untimed(s.callers) && Run(s, acts, s') && forall a :: a in acts && a.Call? ==> !a.timed
    ensures Stolen(s, acts) == 0
    decreases |acts|
  {
    if acts != [] {
      assert acts[0] in acts;
      UntimedNeverSteals(Apply(s, acts[0]), acts[1..], s');
    }
  }

  /**
   With a task queued some worker is not asleep; with a place free some caller is not blocked,
   unless a wake-up was stolen.
   */
  lemma NeverStalls(s0: State, acts: seq<Action>, s: State)
    requires Init(s0) && Run(s0, acts, s) && s.phase.Running?
    ensures s.queue != [] ==> exists w :: w in s.workers && !s.workers[w].Asleep?
    ensures |s.queue| + Stolen(s0, acts) < s.cap && s.callers != map[] ==> exists c :: c in s.callers && !s.callers[c].Blocked?
  {
    NoLostWakeups(s0, acts, s);
    InvInit(s0);
    InvRun(s0, acts, s);
    if s.queue != [] {
      var w :| w in s0.workers;
      if s.workers[w].Asleep? {
        assert w in Sleepers(s.workers);
        var v :| v in WokenWorkers(s.workers);
        assert !s.workers[v].Asleep?;
      }
    }
    if |s.queue| + Stolen(s0, acts) < s.cap && s.callers != map[] {
      var c :| c in s.callers;
      if s.callers[c].Blocked? {
        assert c in BlockedCallers(s.callers);
        var d :| d in RousedCallers(s.callers);
        assert !s.callers[d].Blocked?;
      }
    }
  }

  ghost predicate AllExited(s: State) {
    forall w :: w in s.workers ==> s.workers[w].Exited?
  }

  lemma {:induction false} OnceEach(xs: seq<nat>, k: nat)
    requires forall i, j :: 0 <= i < j < |xs| ==> xs[i] != xs[j]
    ensures multiset(xs)[k] == if k in xs then 1 else 0
  {
    if xs != [] {
      var ys := xs[..|xs| - 1];
      assert xs == ys + [xs[|xs| - 1]];
      OnceEach(ys, k);
      assert xs[|xs| - 1] !in ys;
    }
  }

  lemma {:induction false} DistinctCount(xs: seq<nat>, n: nat)
    requires forall i, j :: 0 <= i < j < |xs| ==> xs[i] != xs[j]
    requires forall k: nat :: k in xs <==> k < n
    ensures |xs| == n
    decreases n
  {
    if xs != [] { assert xs[0] in xs; }
    if n > 0 {
      assert n - 1 in xs;
      var i :| 0 <= i < |xs| && xs[i] == n - 1;
      var ys := xs[..i] + xs[i + 1..];
      forall k: nat ensures k in ys <==> k < n - 1 {
        if k in ys { assert k in xs; }
        if k < n - 1 { assert k in xs; var j :| 0 <= j < |xs| && xs[j] == k; assert ys[if j < i then j else j - 1] == k; }
      }
      DistinctCount(ys, n - 1);
    }
  }

  /** A GRACEFUL destroy that has joined all workers leaves nothing queued, and every accepted task has run exactly once. */
  lemma GracefulRunsEverything(s0: State, acts: seq<Action>, s: State)
    requires Init(s0) && Run(s0, acts, s) && s.phase == Closing(Graceful) && AllExited(s)
    ensures s.queue == []
    ensures forall k: nat :: multiset(s.finished)[k] == if k < |s.accepted| then 1 else 0
  {
    InvInit(s0);
    InvRun(s0, acts, s);
    var w :| w in s0.workers;
    assert s.workers[w].Exited?;
    assert forall k: nat :: !Runs(s.workers, k);
    forall k: nat { OnceEach(s.finished, k); }
  }

  /** An IMMEDIATE destroy leaves a suffix of the accepted tasks; all others have run exactly once. */
  lemma ImmediateConserves(s0: State, acts: seq<Action>, s: State)
    requires Init(s0) && Run(s0, acts, s) && s.phase == Closing(Immediate) && AllExited(s)
    ensures |s.finished| + |s.queue| == |s.accepted|
    ensures s.queue == s.accepted[|s.finished|..]
    ensures forall k: nat :: multiset(s.finished)[k] == if k < |s.finished| then 1 else 0
  {
    InvInit(s0);
    InvRun(s0, acts, s);
    assert forall k: nat :: !Runs(s.workers, k);
    DistinctCount(s.finished, s.taken);
    forall k: nat { OnceEach(s.finished, k); }
  }

  /** Tasks leave the queue in the order in which they were accepted: a worker always takes the next ticket. */
  lemma FirstInFirstOut(s0: State, acts: seq<Action>, s: State, w: nat, woke: set<nat>)
    requires Init(s0) && Run(s0, acts, s) && Enabled(s, WorkerTurn(w, woke))
    ensures var s' := Apply(s, WorkerTurn(w, woke));
            s'.workers[w].Busy? ==> s'.workers[w].ticket == s.taken < |s.accepted| && s.queue != [] && s.queue[0] == s.accepted[s.taken]
  {
    InvInit(s0);
    InvRun(s0, acts, s);
  }

  /**
   nv_threadpool_wait_idle returns only on an empty queue; at that moment all accepted tasks have
   finished if and only if no worker is busy.
   */
  lemma WaitIdleReturns(s0: State, acts: seq<Action>, s: State, i: nat)
    requires Init(s0) && Run(s0, acts, s) && Enabled(s, WaiterTurn(i))
    requires Apply(s, WaiterTurn(i)).waiters[i].Released?
    ensures s.queue == []
    ensures (forall k: nat :: k < |s.accepted| ==> k in s.finished) <==> (forall w :: w in s.workers ==> !s.workers[w].Busy?)
  {
    InvInit(s0);
    InvRun(s0, acts, s);
    if w :| w in s.workers && s.workers[w].Busy? {
      assert Runs(s.workers, s.workers[w].ticket);
    } else {
      assert forall k: nat :: !Runs(s.workers, k);
    }
  }

  lemma RunCons(s: State, a: Action, acts: seq<Action>, s': State)
    requires Enabled(s, a) && Run(Apply(s, a), acts, s')
    ensures Run(s, [a] + acts, s')
  {
    assert ([a] + acts)[1..] == acts;
  }

  /** A pool with one worker and one place, with one task in the given stage. */
  function Stage(queue: seq<Task>, w: Worker, callers: map<nat, Caller>, waiters: map<nat, Waiter>, accepted: seq<Task>, taken: nat): State {
    State(1, queue, Running, map[0 := w], callers, waiters, accepted, taken, [])
  }

  /** With the task queued, a worker may take it and wait_idle then return at once. */
  lemma TakenThenReleased(task: Task)
    ensures var done := map[0 := Returned(Ok)];
            Run(Stage([task], Fresh, done, map[], [task], 0), [WorkerTurn(0, {})] + ([Ask(0)] + ([WaiterTurn(0)] + [])),
                Stage([], Busy(0), done, map[0 := Released], [task], 1))
  {
    var done := map[0 := Returned(Ok)];
    var s2 := Stage([task], Fresh, done, map[], [task], 0);
    var s3 := Stage([], Busy(0), done, map[], [task], 1);
    var s4 := Stage([], Busy(0), done, map[0 := Asking], [task], 1);
    var s5 := Stage([], Busy(0), done, map[0 := Released], [task], 1);
    RunCons(s4, WaiterTurn(0), [], s5);
    RunCons(s3, Ask(0), [WaiterTurn(0)] + [], s5);
    assert RouseCallers(done, {}) == done && AlertWaiters(map[]) == map[];
    RunCons(s2, WorkerTurn(0, {}), [Ask(0)] + ([WaiterTurn(0)] + []), s5);
  }

  lemma CalledThenQueued(task: Task, rest: seq<Action>, s: State)
    requires Run(Stage([task], Fresh, map[0 := Returned(Ok)], map[], [task], 0), rest, s)
    ensures Run(Stage([], Fresh, map[0 := Calling(task, false)], map[], [], 0), [CallerTurn(0, {})] + rest, s)
  {
    var s1 := Stage([], Fresh, map[0 := Calling(task, false)], map[], [], 0);
    assert WakeWorkers(map[0 := Fresh], {}) == map[0 := Fresh];
    assert s1.callers[0 := Returned(Ok)] == map[0 := Returned(Ok)];
    assert Sleepers(s1.workers) == {} && [] + [task] == [task];
    RunCons(s1, CallerTurn(0, {}), rest, s);
  }

  /** A run in which wait_idle returns while the only task is still running, against the header's promise. */
  lemma WaitIdleIsNotCompletion(task: Task) returns (s0: State, acts: seq<Action>, s: State)
    ensures Init(s0) && Run(s0, acts, s)
    ensures s.waiters == map[0 := Released] && s.accepted == [task] && s.finished == []
  {
    s0 := Stage([], Fresh, map[], map[], [], 0);
    s := Stage([], Busy(0), map[0 := Returned(Ok)], map[0 := Released], [task], 1);
    var rest := [WorkerTurn(0, {})] + ([Ask(0)] + ([WaiterTurn(0)] + []));
    TakenThenReleased(task);
    CalledThenQueued(task, rest, s);
    acts := [Call(0, task, false)] + ([CallerTurn(0, {})] + rest);
    RunCons(s0, Call(0, task, false), [CallerTurn(0, {})] + rest, s);
  }

  // ----- the pool's own fields -----

  /** Position i of a circular buffer of the given capacity. */
  function Wrap(i: nat, capacity: nat): nat
    requires capacity > 0
  {
    if i < capacity then i else i - capacity
  }

  ghost function Circular(buf: seq<Task>, head: nat, count: nat): (r: seq<Task>)
    requires head < |buf| && count <= |buf|
    ensures |r| == count
  {
    seq(count, i requires 0 <= i < count => buf[Wrap(head + i, |buf|)])
  }

  lemma ModIsWrap(i: nat, capacity: nat)
    requires 0 < capacity && i <= capacity
    ensures i % capacity == Wrap(i, capacity) < capacity
  {
  }

  lemma CircularPush(buf: seq<Task>, head: nat, count: nat, task: Task)
    requires head < |buf| && count < |buf|
    ensures Circular(buf[Wrap(head + count, |buf|) := task], head, count + 1) == Circular(buf, head, count) + [task]
  {
    var buf' := buf[Wrap(head + count, |buf|) := task];
    var l, r := Circular(buf', head, count + 1), Circular(buf, head, count) + [task];
    forall i | 0 <= i < count + 1 ensures l[i] == r[i] {
      assert l[i] == buf'[Wrap(head + i, |buf|)];
    }
  }

  lemma CircularPop(buf: seq<Task>, head: nat, count: nat)
    requires head < |buf| && 0 < count <= |buf|
    ensures Circular(buf, head, count) == [buf[head]] + Circular(buf, Wrap(head + 1, |buf|), count - 1)
  {
    var l, r := Circular(buf, head, count), [buf[head]] + Circular(buf, Wrap(head + 1, |buf|), count - 1);
    forall i | 0 <= i < count ensures l[i] == r[i] {
      assert l[i] == buf[Wrap(head + i, |buf|)];
      if i > 0 { assert r[i] == buf[Wrap(Wrap(head + 1, |buf|) + (i - 1), |buf|)]; }
    }
  }

  function FreshWorkers(n: nat): (ws: map<nat, Worker>)
    ensures forall w :: w in ws <==> 0 <= w < n
    ensures forall w :: w in ws ==> ws[w] == Fresh
  {
    if n == 0 then map[] else FreshWorkers(n - 1)[n - 1 := Fresh]
  }

  /** threadpool_t: each method is one lock-held region and is a step of the machine. */
  class Pool {
    const queue: array<Task>
    var head: nat
    var tail: nat
    var count: nat
    var shutdown: bool
    var mode: Mode
    ghost var env: State

    ghost predicate RingOk()
      reads this, queue
    {
      && queue.Length > 0 && head < queue.Length && tail < queue.Length && count <= queue.Length
      && tail == Wrap(head + count, queue.Length)
    }

    ghost predicate Valid()
      reads this, queue
    {
      && RingOk()
      && env.cap == queue.Length && env.queue == Circular(queue[..], head, count)
      && env.phase == if shutdown then Closing(mode) else Running
    }

    /** nv_threadpool_create, once its arguments are found positive. */
    constructor (threads: nat, capacity: nat)
      requires threads > 0 && capacity > 0
      ensures Valid() && Init(env) && fresh(queue) && env.workers == FreshWorkers(threads) && env.cap == capacity
    {
      queue := new Task[capacity](_ => Task(0, 0));
      head, tail, count, shutdown, mode := 0, 0, 0, false, Graceful;
      env := State(capacity, [], Running, FreshWorkers(threads), map[], map[], [], 0, []);
      new;
      assert 0 in env.workers;
    }

    /** nv_tp_enqueue */
    method Enqueue(task: Task) returns (ok: bool)
      requires RingOk()
      modifies queue, this`tail, this`count
      ensures RingOk() && ok == (old(count) < queue.Length)
      ensures Circular(queue[..], head, count) == old(Circular(queue[..], head, count)) + if ok then [task] else []
    {
      if count == queue.Length { return false; }
      ModIsWrap(tail + 1, queue.Length);
      CircularPush(queue[..], head, count, task);
      ghost var before := queue[..];
      queue[tail] := task;
      assert queue[..] == before[tail := task];
      tail := (tail + 1) % queue.Length;
      count := count + 1;
      return true;
    }

    /** nv_tp_dequeue */
    method Dequeue() returns (ok: bool, task: Task)
      requires RingOk()
      modifies this`head, this`count
      ensures RingOk() && ok == (old(count) > 0)
      ensures !ok ==> Circular(queue[..], head, count) == old(Circular(queue[..], head, count))
      ensures ok ==> old(Circular(queue[..], head, count)) == [task] + Circular(queue[..], head, count)
    {
      task := queue[head];
      if count == 0 { return false, task; }
      ModIsWrap(head + 1, queue.Length);
      CircularPop(queue[..], head, count);
      head := (head + 1) % queue.Length;
      count := count - 1;
      return true, task;
    }

    /** The body of add under the lock: accept, refuse, or go (back) to sleep. */
    method Add(c: nat, task: Task, ghost woke: set<nat>) returns (rc: Code, waits: bool)
      requires Valid() && Enabled(env, CallerTurn(c, woke)) && env.callers[c].task == task
      modifies this, queue
      ensures Valid() && env == Apply(old(env), CallerTurn(c, woke))
      ensures env.callers[c] == if waits then Blocked(task, old(env).callers[c].timed) else Returned(rc)
    {
      env := Apply(env, CallerTurn(c, woke));
      rc := Ok;
      if shutdown { return Shutdown, false; }
      if count == queue.Length { return Ok, true; }
      var ok := Enqueue(task);
      return Ok, false;
    }

    /** The return of add_timeout on ETIMEDOUT, whatever the queue has room for by then. */
    method TimeOut(c: nat) returns (rc: Code)
      requires Valid() && Enabled(env, GiveUp(c))
      modifies this`env
      ensures Valid() && env == Apply(old(env), GiveUp(c)) && env.callers[c] == Returned(rc)
    {
      env := Apply(env, GiveUp(c));
      return TimedOut;
    }

    /** One look of wait_idle under the lock. */
    method LookIdle(i: nat) returns (waits: bool)
      requires Valid() && Enabled(env, WaiterTurn(i))
      modifies this`env
      ensures Valid() && env == Apply(old(env), WaiterTurn(i))
      ensures env.waiters[i] == if waits then Waiting else Released
    {
      env := Apply(env, WaiterTurn(i));
      return count != 0;
    }

    /** The body of a worker's turn under the lock: sleep, leave, or take a task. */
    method Take(w: nat, ghost woke: set<nat>) returns (task: Task, runs: bool)
      requires Valid() && Enabled(env, WorkerTurn(w, woke)) && QueueOk(env)
      modifies this, queue
      ensures Valid() && env == Apply(old(env), WorkerTurn(w, woke))
      ensures runs == env.workers[w].Busy?
      ensures runs ==> task == old(env).accepted[env.workers[w].ticket]
    {
      env := Apply(env, WorkerTurn(w, woke));
      task := queue[head];
      if count == 0 && !shutdown { return task, false; }
      if shutdown && (mode == Immediate || count == 0) { return task, false; }
      var ok;
      ok, task := Dequeue();
      return task, ok;
    }

    /** The body of destroy under the lock. */
    method Close(mode': Mode)
      requires Valid() && Enabled(env, Destroy(mode'))
      modifies this
      ensures Valid() && env == Apply(old(env), Destroy(mode'))
    {
      shutdown, mode := true, mode';
      env := Apply(env, Destroy(mode'));
    }
  }

  /** nv_threadpool_create; `memory` says whether all of malloc's answers are positive. */
  method Create(threads: int, capacity: int, memory: bool) returns (tp: Pool?)
    ensures tp == null <==> threads <= 0 || capacity <= 0 || !memory
    ensures tp != null ==> fresh(tp) && tp.Valid() && Init(tp.env) && |tp.env.workers| == threads && tp.env.cap == capacity
  {
    if threads <= 0 || capacity <= 0 { return null; }
    if !memory { return null; }
    FreshCount(threads);
    tp := new Pool(threads, capacity);
  }

  lemma {:induction false} FreshCount(n: nat)
    ensures |FreshWorkers(n)| == n
  {
    if n > 0 {
      FreshCount(n - 1);
      assert FreshWorkers(n).Keys == FreshWorkers(n - 1).Keys + {n - 1};
    }
  }
}
