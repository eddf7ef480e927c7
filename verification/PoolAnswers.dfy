/**
 What the thread pool answers its callers: over every run, a call of add returns OK exactly if its own task
 was accepted, once; shutdown and timeout are answered only to calls whose tasks were not.
 */
module PoolAnswers {
  import opened ThreadPool

  /** The caller made a call for this task. */
  ghost predicate Asks(asked: set<Action>, c: nat, task: Task) {
    Call(c, task, true) in asked || Call(c, task, false) in asked
  }

  ghost predicate AsksTimed(asked: set<Action>, c: nat) {
    exists task :: Call(c, task, true) in asked
  }

  /** The call that a caller made, in the words of its action. */
  ghost predicate Speaks(c: nat, x: Caller, asked: set<Action>) {
    match x
    case Calling(task, timed) => Call(c, task, timed) in asked
    case Blocked(task, timed) => Call(c, task, timed) in asked
    case Roused(task, timed) => Call(c, task, timed) in asked
    case Expired => AsksTimed(asked, c)
    case Returned(rc) => rc.TimedOut? ==> AsksTimed(asked, c)
  }

  ghost predicate Told(cs: map<nat, Caller>, c: nat, rc: Code) {
    c in cs && cs[c] == Returned(rc)
  }

  /** `owners` names for each ticket the caller that was told OK for it. */
  ghost predicate Owned(s: State, owners: seq<nat>, asked: set<Action>) {
    && |owners| == |s.accepted|
    && (forall i, j :: 0 <= i < j < |owners| ==> owners[i] != owners[j])
    && (forall c :: c in owners <==> Told(s.callers, c, Ok))
    && (forall k :: 0 <= k < |owners| ==> Asks(asked, owners[k], s.accepted[k]))
  }

  ghost predicate Honest(s: State, owners: seq<nat>, asked: set<Action>) {
    && Owned(s, owners, asked)
    && (forall c :: c in s.callers ==> Speaks(c, s.callers[c], asked))
    && (forall c :: Told(s.callers, c, Shutdown) ==> !s.phase.Running?)
  }

  /** What a turn under the lock answers, and what becomes of the task. */
  lemma TurnAnswers(s: State, c: nat, woke: set<nat>)
    requires Inv(s) && Enabled(s, CallerTurn(c, woke))
    ensures var s', me := Apply(s, CallerTurn(c, woke)), s.callers[c];
            && (s'.callers[c] == Returned(Ok) <==> s'.accepted == s.accepted + [me.task])
            && (s'.callers[c] == Returned(Ok) <==> s.phase.Running? && |s.queue| < s.cap)
            && (s'.callers[c] == Returned(Shutdown) <==> s.phase.Closing?)
            && (s'.callers[c] != Returned(Ok) ==> s'.accepted == s.accepted)
            && s'.callers[c] != Returned(TimedOut)
  {
    assert |s.accepted + [s.callers[c].task]| != |s.accepted|;
  }

  lemma CallersMove(s: State, s': State, owners: seq<nat>, asked: set<Action>)
    requires Honest(s, owners, asked) && s'.accepted == s.accepted
    requires forall c :: Told(s'.callers, c, Ok) <==> Told(s.callers, c, Ok)
    requires forall c :: c in s'.callers ==> Speaks(c, s'.callers[c], asked)
    requires forall c :: Told(s'.callers, c, Shutdown) ==> !s'.phase.Running?
    ensures Honest(s', owners, asked)
  {
  }

  lemma AcceptMoves(s: State, c: nat, woke: set<nat>, owners: seq<nat>, asked: set<Action>)
    requires Honest(s, owners, asked) && Enabled(s, CallerTurn(c, woke)) && CallerStep(s, c, woke).callers[c] == Returned(Ok)
    requires CallerStep(s, c, woke).accepted == s.accepted + [s.callers[c].task]
    ensures Honest(CallerStep(s, c, woke), owners + [c], asked)
  {
    var s', me := CallerStep(s, c, woke), s.callers[c];
    assert !Told(s.callers, c, Ok) && Speaks(c, me, asked) && Asks(asked, c, me.task);
    forall d ensures d in owners + [c] <==> Told(s'.callers, d, Ok) {
      assert d != c ==> (Told(s'.callers, d, Ok) <==> Told(s.callers, d, Ok));
    }
    forall d ensures Told(s'.callers, d, Shutdown) ==> !s'.phase.Running? {
      assert d != c ==> (Told(s'.callers, d, Shutdown) <==> Told(s.callers, d, Shutdown));
    }
    forall d | d in s'.callers ensures Speaks(d, s'.callers[d], asked) {
      assert d != c ==> Speaks(d, s.callers[d], asked);
    }
    assert forall k :: 0 <= k < |owners| ==> (owners + [c])[k] == owners[k] && s'.accepted[k] == s.accepted[k];
  }

  lemma OtherSteps(s: State, a: Action, owners: seq<nat>, asked: set<Action>)
    requires Inv(s) && Honest(s, owners, asked) && Enabled(s, a) && (a.Call? ==> a in asked)
    requires a.CallerTurn? ==> Apply(s, a).callers[a.c] != Returned(Ok)
    ensures var s' := Apply(s, a);
            && s'.accepted == s.accepted
            && (forall c :: Told(s'.callers, c, Ok) <==> Told(s.callers, c, Ok))
            && (forall c :: c in s'.callers ==> Speaks(c, s'.callers[c], asked))
            && (forall c :: Told(s'.callers, c, Shutdown) ==> !s'.phase.Running?)
  {
    var s' := Apply(s, a);
    if a.CallerTurn? { TurnAnswers(s, a.c, a.woke); }
    forall c | c in s'.callers ensures Speaks(c, s'.callers[c], asked) && (Told(s'.callers, c, Shutdown) ==> !s'.phase.Running?) {
      if c in s.callers { assert Speaks(c, s.callers[c], asked) && (Told(s.callers, c, Shutdown) ==> !s.phase.Running?); }
    }
  }

  lemma StepHonest(s: State, a: Action, owners: seq<nat>, asked: set<Action>) returns (owners': seq<nat>)
    requires Inv(s) && Honest(s, owners, asked) && Enabled(s, a) && (a.Call? ==> a in asked)
    ensures Honest(Apply(s, a), owners', asked)
  {
    owners' := owners;
    var s' := Apply(s, a);
    if a.CallerTurn? && s'.callers[a.c] == Returned(Ok) {
      TurnAnswers(s, a.c, a.woke);
      AcceptMoves(s, a.c, a.woke, owners, asked);
      owners' := owners + [a.c];
    } else {
      OtherSteps(s, a, owners, asked);
      CallersMove(s, s', owners, asked);
    }
  }

  ghost function Asked(acts: seq<Action>): set<Action> {
    set k | 0 <= k < |acts| && acts[k].Call? :: acts[k]
  }

  lemma {:induction false} RunHonest(s: State, acts: seq<Action>, s': State, owners: seq<nat>, asked: set<Action>) returns (owners': seq<nat>)
    requires Inv(s) && Honest(s, owners, asked) && Run(s, acts, s') && forall a :: a in acts && a.Call? ==> a in asked
    ensures Honest(s', owners', asked)
    decreases |acts|
  {
    owners' := owners;
    if acts != [] {
      assert acts[0] in acts;
      owners' := StepHonest(s, acts[0], owners, asked);
      InvStep(s, acts[0]);
      owners' := RunHonest(Apply(s, acts[0]), acts[1..], s', owners', asked);
    }
  }

  /**
   Over every run from a new pool: the calls answered OK and the accepted tasks match one to one, each ticket holding
   the task of its own call; shutdown is answered only once the pool is closed, and a timeout only to a timed call.
   */
  lemma OkIffAccepted(s0: State, acts: seq<Action>, s: State) returns (owners: seq<nat>)
    requires Init(s0) && Run(s0, acts, s)
    ensures |owners| == |s.accepted| && forall i, j :: 0 <= i < j < |owners| ==> owners[i] != owners[j]
    ensures forall c :: c in owners <==> Told(s.callers, c, Ok)
    ensures forall k :: 0 <= k < |owners| ==> Asks(Asked(acts), owners[k], s.accepted[k])
    ensures forall c :: Told(s.callers, c, Shutdown) ==> s.phase.Closing?
    ensures forall c :: Told(s.callers, c, TimedOut) ==> AsksTimed(Asked(acts), c)
  {
    InvInit(s0);
    var asked := Asked(acts);
    owners := RunHonest(s0, acts, s, [], asked);
    forall c | Told(s.callers, c, TimedOut) ensures AsksTimed(asked, c) {
      assert Speaks(c, s.callers[c], asked);
    }
  }

  /** After destroy nothing is accepted any more, and nobody is told OK who was not told before. */
  lemma {:induction false} NoOkAfterDestroy(s: State, acts: seq<Action>, s': State)
    requires Inv(s) && s.phase.Closing? && Run(s, acts, s')
    ensures s'.phase == s.phase && s'.accepted == s.accepted
    ensures forall c :: Told(s'.callers, c, Ok) ==> Told(s.callers, c, Ok)
    decreases |acts|
  {
    if acts != [] {
      InvStep(s, acts[0]);
      if acts[0].CallerTurn? { TurnAnswers(s, acts[0].c, acts[0].woke); }
      NoOkAfterDestroy(Apply(s, acts[0]), acts[1..], s');
    }
  }

  /** The pool is closing in a mode exactly if the run has destroyed it in that mode. */
  lemma {:induction false} ClosedAsAsked(s: State, acts: seq<Action>, s': State, mode: Mode)
    requires Inv(s) && s.phase.Running? && Run(s, acts, s')
    ensures s'.phase == Closing(mode) <==> Destroy(mode) in acts
    decreases |acts|
  {
    if acts != [] {
      var s1 := Apply(s, acts[0]);
      InvStep(s, acts[0]);
      if acts[0].Destroy? {
        NoOkAfterDestroy(s1, acts[1..], s');
        NotTwice(s1, acts[1..], s', mode);
      } else {
        ClosedAsAsked(s1, acts[1..], s', mode);
      }
      assert Destroy(mode) in acts <==> acts[0] == Destroy(mode) || Destroy(mode) in acts[1..];
    }
  }

  lemma {:induction false} NotTwice(s: State, acts: seq<Action>, s': State, mode: Mode)
    requires Inv(s) && s.phase.Closing? && Run(s, acts, s')
    ensures Destroy(mode) !in acts
    decreases |acts|
  {
    if acts != [] {
      InvStep(s, acts[0]);
      NotTwice(Apply(s, acts[0]), acts[1..], s', mode);
    }
  }
}
