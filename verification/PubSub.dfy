/**
 Publish/subscribe quiescence of src/core/bus/nv_core_pubsub.c: publishers take a
 snapshot of the matching subscriptions under the mutex, call the handlers outside
 it and count the calls in flight; unsubscribe and cleanup wait for the count.

 Any number of publishers, unsubscribers and one cleanup interleave. A lock-held
 region is one step: cleanup visits subscriptions in one step until it must wait.
 Subscriptions are numbered in the order in which they were made; the source's
 list holds the newest first.
 */
module PubSub {

  datatype Sub = Sub(topic: string, active: bool, calls: int)

  datatype Stage = Ready | InHandler | Back

  /** A publish call: the call records not yet discharged, and how far the first of them is. */
  datatype Publisher = Publisher(records: seq<nat>, stage: Stage)

  datatype Wait = Entering | Sleeping | Awake | Done

  datatype Unsub = Unsub(sub: nat, pc: Wait)

  /** Cleanup that began with `start` subscriptions and has visited all from k on. */
  datatype Cleanup = Off | Sweeping(start: nat, k: nat, asleep: bool) | Finished(start: nat)

  datatype State = State(subs: seq<Sub>, pubs: seq<Publisher>, unsubs: seq<Unsub>, cleanup: Cleanup)

  datatype Action =
    | Subscribe(topic: string)
    | Publish(topic: string)
    | Invoke(p: nat)
    | Return(p: nat)
    | Discharge(p: nat)
    | Unsubscribe(x: nat)
    | UnsubTurn(u: nat)
    | SpuriousUnsub(u: nat)
    | Clean
    | CleanTurn
    | SpuriousClean

  // ----- the machine -----

  predicate Matches(s: Sub, topic: string) {
    s.active && s.topic == topic
  }

  /** The snapshot, newest subscription first. */
  function Matching(subs: seq<Sub>, topic: string): (r: seq<nat>)
    ensures forall x :: x in r ==> x < |subs|
  {
    if subs == [] then []
    else
      var n := |subs| - 1;
      (if Matches(subs[n], topic) then [n] else []) + Matching(subs[..n], topic)
  }

  function Bump(subs: seq<Sub>, topic: string): (r: seq<Sub>)
    ensures |r| == |subs|
    ensures forall i :: 0 <= i < |r| ==> r[i] == if Matches(subs[i], topic) then subs[i].(calls := subs[i].calls + 1) else subs[i]
  {
    seq(|subs|, i requires 0 <= i < |subs| =>
      if Matches(subs[i], topic) then subs[i].(calls := subs[i].calls + 1) else subs[i])
  }

  /** pthread_cond_broadcast */
  function WakeAll(us: seq<Unsub>): (r: seq<Unsub>)
    ensures |r| == |us|
    ensures forall u :: 0 <= u < |us| ==> r[u] == if us[u].pc.Sleeping? then us[u].(pc := Awake) else us[u]
  {
    seq(|us|, u requires 0 <= u < |us| => if us[u].pc.Sleeping? then us[u].(pc := Awake) else us[u])
  }

  function WakeCleanup(c: Cleanup): Cleanup {
    if c.Sweeping? then c.(asleep := false) else c
  }

  predicate Shape(s: State) {
    && (forall p :: 0 <= p < |s.pubs| ==>
          && (forall x :: x in s.pubs[p].records ==> x < |s.subs|)
          && (!s.pubs[p].stage.Ready? ==> s.pubs[p].records != []))
    && (forall u :: 0 <= u < |s.unsubs| ==> s.unsubs[u].sub < |s.subs|)
    && (s.cleanup.Sweeping? ==> s.cleanup.k <= s.cleanup.start <= |s.subs|)
    && (s.cleanup.Finished? ==> s.cleanup.start <= |s.subs|)
  }

  predicate Enabled(s: State, a: Action) {
    && Shape(s) && !s.cleanup.Finished?
    && match a
       case Subscribe(topic) => topic != []
       case Publish(topic) => topic != []
       case Invoke(p) => p < |s.pubs| && s.pubs[p].stage.Ready? && s.pubs[p].records != []
       case Return(p) => p < |s.pubs| && s.pubs[p].stage.InHandler?
       case Discharge(p) => p < |s.pubs| && s.pubs[p].stage.Back?
       case Unsubscribe(x) => x < |s.subs|
       case UnsubTurn(u) => u < |s.unsubs| && (s.unsubs[u].pc.Entering? || s.unsubs[u].pc.Awake?)
       case SpuriousUnsub(u) => u < |s.unsubs| && s.unsubs[u].pc.Sleeping?
       case Clean => s.cleanup.Off?
       case CleanTurn => s.cleanup.Sweeping? && !s.cleanup.asleep
       case SpuriousClean => s.cleanup.Sweeping? && s.cleanup.asleep
  }

  function Retire(subs: seq<Sub>, x: nat): seq<Sub>
    requires x < |subs|
  {
    subs[x := subs[x].(active := false)]
  }

  /** The cleanup loop from subscription k - 1 on: it stops before 0, or waits at j - 1 where calls are in flight. */
  function Stop(subs: seq<Sub>, k: nat): (j: nat)
    requires k <= |subs|
    ensures j <= k && (j > 0 ==> subs[j - 1].calls > 0) && forall i :: j <= i < k ==> subs[i].calls <= 0
  {
    if k == 0 then 0 else if subs[k - 1].calls > 0 then k else Stop(subs, k - 1)
  }

  /** All it visits are retired, the one it waits at included. */
  function Swept(subs: seq<Sub>, k: nat): (r: seq<Sub>)
    requires k <= |subs|
    ensures |r| == |subs|
    ensures forall i :: 0 <= i < |r| ==> r[i] == if Stop(subs, k) - 1 <= i < k then subs[i].(active := false) else subs[i]
  {
    var j := Stop(subs, k);
    seq(|subs|, i requires 0 <= i < |subs| => if j - 1 <= i < k then subs[i].(active := false) else subs[i])
  }

  function SweepFrom(s: State, start: nat, k: nat): State
    requires k <= |s.subs|
  {
    var j := Stop(s.subs, k);
    s.(subs := Swept(s.subs, k), cleanup := if j == 0 then Finished(start) else Sweeping(start, j, true))
  }

  function Apply(s: State, a: Action): State
    requires Enabled(s, a)
  {
    match a
    case Subscribe(topic) => s.(subs := s.subs + [Sub(topic, true, 0)])
    case Publish(topic) =>
      s.(subs := Bump(s.subs, topic), pubs := s.pubs + [Publisher(Matching(s.subs, topic), Ready)])
    case Invoke(p) => s.(pubs := s.pubs[p := s.pubs[p].(stage := InHandler)])
    case Return(p) => s.(pubs := s.pubs[p := s.pubs[p].(stage := Back)])
    case Discharge(p) =>
      var x := s.pubs[p].records[0];
      assert x in s.pubs[p].records;
      s.(subs := s.subs[x := s.subs[x].(calls := s.subs[x].calls - 1)],
         pubs := s.pubs[p := Publisher(s.pubs[p].records[1..], Ready)],
         unsubs := WakeAll(s.unsubs), cleanup := WakeCleanup(s.cleanup))
    case Unsubscribe(x) => s.(unsubs := s.unsubs + [Unsub(x, Entering)])
    case UnsubTurn(u) =>
      var x := s.unsubs[u].sub;
      s.(subs := Retire(s.subs, x),
         unsubs := s.unsubs[u := Unsub(x, if s.subs[x].calls > 0 then Sleeping else Done)])
    case SpuriousUnsub(u) => s.(unsubs := s.unsubs[u := s.unsubs[u].(pc := Awake)])
    case Clean => SweepFrom(s, |s.subs|, |s.subs|)
    case CleanTurn => SweepFrom(s, s.cleanup.start, s.cleanup.k)
    case SpuriousClean => s.(cleanup := s.cleanup.(asleep := false))
  }

  // ----- the invariant -----

  /** How many undischarged call records refer to subscription x. */
  ghost function InFlight(pubs: seq<Publisher>, x: nat): nat {
    if pubs == [] then 0
    else InFlight(pubs[..|pubs| - 1], x) + multiset(pubs[|pubs| - 1].records)[x]
  }

  ghost predicate Quiet(s: Sub) {
    !s.active && s.calls == 0
  }

  ghost predicate UnsubOk(subs: seq<Sub>, u: Unsub)
    requires u.sub < |subs|
  {
    && (!u.pc.Entering? ==> !subs[u.sub].active)
    && (u.pc.Done? ==> Quiet(subs[u.sub]))
    && (u.pc.Sleeping? ==> subs[u.sub].calls > 0)
  }

  ghost predicate CleanupOk(subs: seq<Sub>, c: Cleanup)
    requires c.Sweeping? ==> c.k <= c.start <= |subs|
    requires c.Finished? ==> c.start <= |subs|
  {
    && (c.Sweeping? ==> forall x :: c.k <= x < c.start ==> Quiet(subs[x]))
    && (c.Sweeping? && c.asleep ==> c.k > 0 && subs[c.k - 1].calls > 0)
    && (c.Finished? ==> forall x :: 0 <= x < c.start ==> Quiet(subs[x]))
  }

  ghost predicate Counted(subs: seq<Sub>, pubs: seq<Publisher>) {
    forall x :: 0 <= x < |subs| ==> subs[x].calls == InFlight(pubs, x)
  }

  ghost predicate Inv(s: State) {
    && Shape(s)
    && Counted(s.subs, s.pubs)
    && (forall u :: 0 <= u < |s.unsubs| ==> UnsubOk(s.subs, s.unsubs[u]))
    && CleanupOk(s.subs, s.cleanup)
  }

  ghost predicate Init(s: State) {
    s == State([], [], [], Off)
  }

  // ----- counting -----

  lemma {:induction false} InFlightUpdate(pubs: seq<Publisher>, p: nat, q: Publisher, x: nat)
    requires p < |pubs|
    ensures InFlight(pubs[p := q], x) == InFlight(pubs, x) - multiset(pubs[p].records)[x] + multiset(q.records)[x]
  {
    var n := |pubs| - 1;
    if p < n {
      assert pubs[p := q][..n] == pubs[..n][p := q];
      InFlightUpdate(pubs[..n], p, q, x);
    } else {
      assert pubs[p := q][..n] == pubs[..n];
    }
  }

  lemma InFlightAppend(pubs: seq<Publisher>, q: Publisher, x: nat)
    ensures InFlight(pubs + [q], x) == InFlight(pubs, x) + multiset(q.records)[x]
  {
    assert (pubs + [q])[..|pubs|] == pubs;
  }

  lemma {:induction false} InFlightBound(pubs: seq<Publisher>, p: nat, x: nat)
    requires p < |pubs|
    ensures InFlight(pubs, x) >= multiset(pubs[p].records)[x]
  {
    if p < |pubs| - 1 { InFlightBound(pubs[..|pubs| - 1], p, x); }
  }

  lemma {:induction false} NoneInFlight(pubs: seq<Publisher>, n: nat, x: nat)
    requires forall p :: 0 <= p < |pubs| ==> forall y :: y in pubs[p].records ==> y < n
    requires x >= n
    ensures InFlight(pubs, x) == 0
  {
    if pubs != [] {
      NoneInFlight(pubs[..|pubs| - 1], n, x);
      assert x !in pubs[|pubs| - 1].records;
    }
  }

  /** The snapshot holds each matching subscription exactly once. */
  lemma {:induction false} SnapshotOnce(subs: seq<Sub>, topic: string, x: nat)
    ensures multiset(Matching(subs, topic))[x] == if x < |subs| && Matches(subs[x], topic) then 1 else 0
  {
    if subs != [] {
      var n := |subs| - 1;
      SnapshotOnce(subs[..n], topic, x);
      var head, tail := if Matches(subs[n], topic) then [n] else [], Matching(subs[..n], topic);
      assert multiset(head + tail)[x] == multiset(head)[x] + multiset(tail)[x];
    }
  }

  lemma HeadTail(r: seq<nat>, x: nat)
    requires r != []
    ensures multiset(r[1..])[x] == multiset(r)[x] - (if r[0] == x then 1 else 0)
  {
    assert r == [r[0]] + r[1..];
  }

  // ----- every step keeps the invariant -----

  /** Retiring a subscription never disturbs anyone's wait. */
  lemma RetireKeeps(s: State, x: nat)
    requires Inv(s) && x < |s.subs|
    ensures Inv(s.(subs := Retire(s.subs, x)))
  {
    var s' := s.(subs := Retire(s.subs, x));
    forall u | 0 <= u < |s'.unsubs| ensures UnsubOk(s'.subs, s'.unsubs[u]) {
      assert UnsubOk(s.subs, s.unsubs[u]);
    }
  }

  lemma SubscribeStep(s: State, topic: string)
    requires Inv(s) && Enabled(s, Subscribe(topic))
    ensures Inv(Apply(s, Subscribe(topic)))
  {
    var s' := Apply(s, Subscribe(topic));
    NoneInFlight(s.pubs, |s.subs|, |s.subs|);
    forall u | 0 <= u < |s'.unsubs| ensures UnsubOk(s'.subs, s'.unsubs[u]) {
      assert UnsubOk(s.subs, s.unsubs[u]);
    }
  }

  lemma PublishCounts(subs: seq<Sub>, pubs: seq<Publisher>, topic: string)
    requires Counted(subs, pubs)
    ensures Counted(Bump(subs, topic), pubs + [Publisher(Matching(subs, topic), Ready)])
  {
    var q := Publisher(Matching(subs, topic), Ready);
    forall x | 0 <= x < |subs| ensures Bump(subs, topic)[x].calls == InFlight(pubs + [q], x) {
      InFlightAppend(pubs, q, x);
      SnapshotOnce(subs, topic, x);
    }
  }

  /** A publish raises counts of active subscriptions only, which nobody waits for. */
  lemma PublishWaits(s: State, topic: string)
    requires Inv(s)
    ensures forall u :: 0 <= u < |s.unsubs| ==> s.unsubs[u].sub < |s.subs| && UnsubOk(Bump(s.subs, topic), s.unsubs[u])
    ensures CleanupOk(Bump(s.subs, topic), s.cleanup)
  {
    forall u | 0 <= u < |s.unsubs| ensures UnsubOk(Bump(s.subs, topic), s.unsubs[u]) {
      assert UnsubOk(s.subs, s.unsubs[u]);
    }
  }

  lemma PublishStep(s: State, topic: string)
    requires Inv(s) && Enabled(s, Publish(topic))
    ensures Inv(Apply(s, Publish(topic)))
  {
    var s' := Apply(s, Publish(topic));
    PublishCounts(s.subs, s.pubs, topic);
    PublishWaits(s, topic);
    assert Shape(s') by {
      assert forall p :: 0 <= p < |s.pubs| ==> s'.pubs[p] == s.pubs[p];
    }
  }

  lemma HandlerStep(s: State, p: nat, stage: Stage)
    requires Inv(s) && p < |s.pubs| && s.pubs[p].records != []
    ensures Inv(s.(pubs := s.pubs[p := s.pubs[p].(stage := stage)]))
  {
    var s' := s.(pubs := s.pubs[p := s.pubs[p].(stage := stage)]);
    forall x | 0 <= x < |s'.subs| ensures s'.subs[x].calls == InFlight(s'.pubs, x) {
      InFlightUpdate(s.pubs, p, s.pubs[p].(stage := stage), x);
    }
  }

  lemma DischargeCounts(s: State, p: nat)
    requires Inv(s) && Enabled(s, Discharge(p))
    ensures var s' := Apply(s, Discharge(p)); Shape(s') && Counted(s'.subs, s'.pubs)
    ensures s.pubs[p].records[0] < |s.subs| && s.subs[s.pubs[p].records[0]].calls > 0
  {
    var s' := Apply(s, Discharge(p));
    var r := s.pubs[p].records;
    assert r[0] in r;
    assert forall y :: y in r[1..] ==> y in r;
    InFlightBound(s.pubs, p, r[0]);
    forall x | 0 <= x < |s'.subs| ensures s'.subs[x].calls == InFlight(s'.pubs, x) {
      InFlightUpdate(s.pubs, p, Publisher(r[1..], Ready), x);
      HeadTail(r, x);
    }
  }

  lemma DischargeStep(s: State, p: nat)
    requires Inv(s) && Enabled(s, Discharge(p))
    ensures Inv(Apply(s, Discharge(p)))
  {
    var s' := Apply(s, Discharge(p));
    DischargeCounts(s, p);
    forall u | 0 <= u < |s'.unsubs| ensures UnsubOk(s'.subs, s'.unsubs[u]) {
      assert UnsubOk(s.subs, s.unsubs[u]);
    }
  }

  /** An unsubscriber moves in a state where its subscription is already retired. */
  lemma UnsubMoves(s: State, u: nat, v: Unsub)
    requires Inv(s) && u < |s.unsubs| && v.sub < |s.subs| && UnsubOk(s.subs, v)
    ensures Inv(s.(unsubs := s.unsubs[u := v]))
  {
  }

  lemma CleanMoves(s: State, c: Cleanup)
    requires Inv(s)
    requires c.Sweeping? ==> c.k <= c.start <= |s.subs|
    requires c.Finished? ==> c.start <= |s.subs|
    requires CleanupOk(s.subs, c)
    ensures Inv(s.(cleanup := c))
  {
  }

  /** Retiring any of the subscriptions disturbs no unsubscriber. */
  lemma RetiredKeeps(s: State, subs: seq<Sub>)
    requires Inv(s) && |subs| == |s.subs|
    requires forall i :: 0 <= i < |subs| ==> subs[i] == s.subs[i] || subs[i] == s.subs[i].(active := false)
    requires CleanupOk(subs, s.cleanup)
    ensures Inv(s.(subs := subs))
  {
    var s1 := s.(subs := subs);
    forall u | 0 <= u < |s1.unsubs| ensures UnsubOk(s1.subs, s1.unsubs[u]) {
      assert UnsubOk(s.subs, s.unsubs[u]);
    }
  }

  lemma SweptQuiet(subs: seq<Sub>, pubs: seq<Publisher>, start: nat, k: nat)
    requires Counted(subs, pubs) && k <= start <= |subs| && forall x :: k <= x < start ==> Quiet(subs[x])
    ensures forall x: nat :: Stop(subs, k) <= x < start ==> Quiet(Swept(subs, k)[x])
  {
    forall x: nat | Stop(subs, k) <= x < start ensures Quiet(Swept(subs, k)[x]) {
      assert subs[x].calls == InFlight(pubs, x) >= 0;
    }
  }

  /** The sweep passes the subscriptions without calls and waits at the first with calls. */
  lemma SweepStep(s: State, start: nat, k: nat)
    requires Inv(s) && k <= start <= |s.subs| && forall x :: k <= x < start ==> Quiet(s.subs[x])
    ensures Inv(SweepFrom(s, start, k))
  {
    var r := Swept(s.subs, k);
    SweptQuiet(s.subs, s.pubs, start, k);
    RetiredKeeps(s, r);
    CleanMoves(s.(subs := r), SweepFrom(s, start, k).cleanup);
  }

  lemma UnsubTurnStep(s: State, u: nat)
    requires Inv(s) && Enabled(s, UnsubTurn(u))
    ensures Inv(Apply(s, UnsubTurn(u)))
  {
    var x := s.unsubs[u].sub;
    RetireKeeps(s, x);
    var s1 := s.(subs := Retire(s.subs, x));
    assert s1.subs[x].calls == InFlight(s1.pubs, x) >= 0;
    UnsubMoves(s1, u, Apply(s, UnsubTurn(u)).unsubs[u]);
  }

  lemma InvStep(s: State, a: Action)
    requires Inv(s) && Enabled(s, a)
    ensures Inv(Apply(s, a))
  {
    match a
    case Subscribe(topic) => SubscribeStep(s, topic);
    case Publish(topic) => PublishStep(s, topic);
    case Invoke(p) => HandlerStep(s, p, InHandler);
    case Return(p) => HandlerStep(s, p, Back);
    case Discharge(p) => DischargeStep(s, p);
    case Unsubscribe(x) =>
    case UnsubTurn(u) => UnsubTurnStep(s, u);
    case SpuriousUnsub(u) => UnsubMoves(s, u, s.unsubs[u].(pc := Awake));
    case Clean => SweepStep(s, |s.subs|, |s.subs|);
    case CleanTurn => SweepStep(s, s.cleanup.start, s.cleanup.k);
    case SpuriousClean => CleanMoves(s, s.cleanup.(asleep := false));
  }

  // ----- runs -----

  ghost predicate Run(s: State, acts: seq<Action>, s': State)
    decreases |acts|
  {
    if acts == [] then s' == s
    else Enabled(s, acts[0]) && Run(Apply(s, acts[0]), acts[1..], s')
  }

  lemma {:induction false} InvRun(s: State, acts: seq<Action>, s': State)
    requires Inv(s) && Run(s, acts, s')
    ensures Inv(s')
    decreases |acts|
  {
    if acts != [] {
      InvStep(s, acts[0]);
      InvRun(Apply(s, acts[0]), acts[1..], s');
    }
  }

  /** sub->calls is always the number of undischarged call records that refer to the subscription. */
  lemma CallsAreCounted(s0: State, acts: seq<Action>, s: State, x: nat)
    requires Init(s0) && Run(s0, acts, s) && x < |s.subs|
    ensures s.subs[x].calls == InFlight(s.pubs, x)
  {
    InvRun(s0, acts, s);
  }

  /** No one sleeps on a count that is already zero. */
  lemma NoLostWakeups(s0: State, acts: seq<Action>, s: State)
    requires Init(s0) && Run(s0, acts, s)
    ensures forall u :: 0 <= u < |s.unsubs| && s.unsubs[u].pc.Sleeping? ==>
              s.unsubs[u].sub < |s.subs| && InFlight(s.pubs, s.unsubs[u].sub) > 0
    ensures s.cleanup.Sweeping? && s.cleanup.asleep ==> s.cleanup.k > 0 && InFlight(s.pubs, s.cleanup.k - 1) > 0
  {
    InvRun(s0, acts, s);
    forall u | 0 <= u < |s.unsubs| && s.unsubs[u].pc.Sleeping?
      ensures s.unsubs[u].sub < |s.subs| && InFlight(s.pubs, s.unsubs[u].sub) > 0
    {
      assert UnsubOk(s.subs, s.unsubs[u]);
    }
  }

  /** The subscription's handler is being called, or will be by a snapshot already taken. */
  ghost predicate Callable(s: State, x: nat) {
    exists p :: 0 <= p < |s.pubs| && x in s.pubs[p].records
  }

  lemma QuietIsUncallable(s: State, x: nat)
    requires Inv(s) && x < |s.subs| && Quiet(s.subs[x])
    ensures !Callable(s, x)
  {
    forall p | 0 <= p < |s.pubs| ensures x !in s.pubs[p].records {
      InFlightBound(s.pubs, p, x);
    }
  }

  /** Quiet once is quiet for ever. */
  lemma {:induction false} QuietStays(s: State, acts: seq<Action>, s': State, x: nat)
    requires Inv(s) && Run(s, acts, s') && x < |s.subs| && Quiet(s.subs[x])
    ensures Inv(s') && x < |s'.subs| && Quiet(s'.subs[x])
    decreases |acts|
  {
    if acts != [] {
      InvStep(s, acts[0]);
      if acts[0].Discharge? { DischargeCounts(s, acts[0].p); }
      QuietStays(Apply(s, acts[0]), acts[1..], s', x);
    }
  }

  /**
   Once unsubscribe has returned, the subscription's handler is not running and no publisher,
   present or future, calls it in any continuation.
   */
  lemma UnsubscribeQuiesces(s0: State, acts: seq<Action>, s1: State, u: nat, more: seq<Action>, s2: State)
    requires Init(s0) && Run(s0, acts, s1) && u < |s1.unsubs| && s1.unsubs[u].pc.Done? && Run(s1, more, s2)
    ensures var x := s1.unsubs[u].sub; x < |s2.subs| && !s2.subs[x].active && !Callable(s2, x)
  {
    InvRun(s0, acts, s1);
    assert UnsubOk(s1.subs, s1.unsubs[u]);
    QuietStays(s1, more, s2, s1.unsubs[u].sub);
    QuietIsUncallable(s2, s1.unsubs[u].sub);
  }

  /**
   When the cleanup loop ends, every subscription that existed when it began is inactive with no call
   in flight, all at that moment.
   */
  lemma CleanupQuiesces(s0: State, acts: seq<Action>, s: State)
    requires Init(s0) && Run(s0, acts, s) && s.cleanup.Finished?
    ensures s.cleanup.start <= |s.subs|
    ensures forall x: nat :: x < s.cleanup.start ==> Quiet(s.subs[x]) && !Callable(s, x)
  {
    InvRun(s0, acts, s);
    forall x: nat | x < s.cleanup.start ensures !Callable(s, x) {
      QuietIsUncallable(s, x);
    }
  }

  // ----- the bus itself -----

  lemma MatchingSplit(subs: seq<Sub>, topic: string, j: nat)
    requires j < |subs|
    ensures Matching(subs[..j + 1], topic) == (if Matches(subs[j], topic) then [j] else []) + Matching(subs[..j], topic)
  {
    assert subs[..j + 1][..j] == subs[..j];
  }

  /** Partly bumped: subscriptions from j on have been counted. */
  ghost predicate BumpedFrom(before: seq<Sub>, subs: seq<Sub>, topic: string, j: nat) {
    && |subs| == |before|
    && forall i :: 0 <= i < |subs| ==> subs[i] == if i >= j then Bump(before, topic)[i] else before[i]
  }

  lemma BumpOne(before: seq<Sub>, subs: seq<Sub>, topic: string, j: nat)
    requires j < |before| && BumpedFrom(before, subs, topic, j + 1)
    ensures subs[j] == before[j]
    ensures BumpedFrom(before, if Matches(before[j], topic) then subs[j := subs[j].(calls := subs[j].calls + 1)] else subs, topic, j)
  {
  }

  lemma BumpDone(before: seq<Sub>, subs: seq<Sub>, topic: string)
    requires BumpedFrom(before, subs, topic, 0)
    ensures subs == Bump(before, topic)
  {
  }

  /** Partly swept: subscriptions from j up to k are retired. */
  ghost predicate SweptFrom(before: seq<Sub>, subs: seq<Sub>, j: nat, k: nat) {
    && |subs| == |before|
    && forall i :: 0 <= i < |subs| ==> subs[i] == if j <= i < k then before[i].(active := false) else before[i]
  }

  lemma SweptIs(before: seq<Sub>, subs: seq<Sub>, k: nat)
    requires k <= |before| && SweptFrom(before, subs, if Stop(before, k) == 0 then 0 else Stop(before, k) - 1, k)
    ensures subs == Swept(before, k)
  {
  }

  lemma FillOne(before: seq<Sub>, topic: string, j: nat, done: seq<nat>)
    requires j < |before| && done + Matching(before[..j + 1], topic) == Matching(before, topic)
    ensures !Matches(before[j], topic) ==> done + Matching(before[..j], topic) == Matching(before, topic)
    ensures Matches(before[j], topic) ==>
              |done| < |Matching(before, topic)| && done + [j] + Matching(before[..j], topic) == Matching(before, topic)
  {
    MatchingSplit(before, topic, j);
    Assoc(done, if Matches(before[j], topic) then [j] else [], Matching(before[..j], topic));
  }

  lemma Assoc(a: seq<nat>, b: seq<nat>, c: seq<nat>)
    ensures a + (b + c) == a + b + c && a + [] == a
  {
  }

  /** The subscriptions of an nv_core_ctx_t; every method is a lock-held region and a step of the machine. */
  class Bus {
    var subs: seq<Sub>
    ghost var env: State

    ghost predicate Valid()
      reads this
    {
      env.subs == subs && Inv(env)
    }

    constructor ()
      ensures Valid() && Init(env)
    {
      subs := [];
      env := State([], [], [], Off);
    }

    method Add(topic: string) returns (handle: nat)
      requires Valid() && Enabled(env, Action.Subscribe(topic))
      modifies this
      ensures Valid() && env == Apply(old(env), Action.Subscribe(topic)) && handle == |old(subs)|
    {
      InvStep(env, Action.Subscribe(topic));
      env := Apply(env, Action.Subscribe(topic));
      handle := |subs|;
      subs := subs + [Sub(topic, true, 0)];
    }

    /** First loop of publish. */
    method CountMatches(topic: string) returns (count: nat)
      ensures count == |Matching(subs, topic)|
    {
      count := 0;
      var j := |subs|;
      assert subs[..j] == subs;
      while j > 0
        invariant 0 <= j <= |subs| && count + |Matching(subs[..j], topic)| == |Matching(subs, topic)|
      {
        j := j - 1;
        MatchingSplit(subs, topic, j);
        if subs[j].active && subs[j].topic == topic { count := count + 1; }
      }
    }

    /** Second loop of publish: one call record per matching subscription, and its count raised. */
    method Fill(topic: string, count: nat) returns (calls: array<nat>)
      requires count == |Matching(subs, topic)|
      modifies this`subs
      ensures fresh(calls) && calls[..] == Matching(old(subs), topic) && subs == Bump(old(subs), topic)
    {
      ghost var before := subs;
      calls := new nat[count];
      var i, j := 0, |subs|;
      assert before[..j] == before;
      while j > 0
        invariant 0 <= j <= |before| && 0 <= i <= count
        invariant BumpedFrom(before, subs, topic, j)
        invariant calls[..i] + Matching(before[..j], topic) == Matching(before, topic)
        modifies this`subs, calls
      {
        j := j - 1;
        ghost var done := calls[..i];
        FillOne(before, topic, j, done);
        BumpOne(before, subs, topic, j);
        if subs[j].active && subs[j].topic == topic {
          subs := subs[j := subs[j].(calls := subs[j].calls + 1)];
          calls[i] := j;
          i := i + 1;
          assert calls[..i] == done + [j];
        }
      }
      assert calls[..] == calls[..i];
      BumpDone(before, subs, topic);
    }

    /** The lock-held part of publish. */
    method Snapshot(topic: string) returns (calls: array<nat>)
      requires Valid() && Enabled(env, Action.Publish(topic))
      modifies this
      ensures Valid() && env == Apply(old(env), Action.Publish(topic)) && fresh(calls)
      ensures calls[..] == Matching(old(subs), topic)
    {
      InvStep(env, Action.Publish(topic));
      env := Apply(env, Action.Publish(topic));
      var count := CountMatches(topic);
      calls := Fill(topic, count);
    }

    method Finished(p: nat, x: nat)
      requires Valid() && Enabled(env, Discharge(p)) && env.pubs[p].records[0] == x
      modifies this
      ensures Valid() && env == Apply(old(env), Discharge(p))
    {
      InvStep(env, Discharge(p));
      DischargeCounts(env, p);
      env := Apply(env, Discharge(p));
      subs := subs[x := subs[x].(calls := subs[x].calls - 1)];
    }

    /** The cleanup loop from subscription k - 1 on, until it is through or must wait. */
    method Walk(k: nat) returns (j: nat)
      requires k <= |subs|
      modifies this`subs
      ensures j == Stop(old(subs), k) && subs == Swept(old(subs), k)
    {
      ghost var before := subs;
      j := k;
      while j > 0
        invariant j <= k <= |before| && Stop(before, k) == Stop(before, j) && SweptFrom(before, subs, j, k)
      {
        subs := subs[j - 1 := subs[j - 1].(active := false)];
        if subs[j - 1].calls > 0 {
          SweptIs(before, subs, k);
          return;
        }
        j := j - 1;
      }
      SweptIs(before, subs, k);
    }

    /** A lock-held stretch of cleanup: its beginning, or its turn after a wait. */
    method Sweep(start: nat, k: nat, ghost a: Action) returns (waits: bool, j: nat)
      requires Valid() && Enabled(env, a) && k <= |subs|
      requires (a == Clean && start == k == |subs|) || (a == CleanTurn && env.cleanup.start == start && env.cleanup.k == k)
      modifies this
      ensures Valid() && env == Apply(old(env), a)
      ensures env.cleanup == if waits then Sweeping(start, j, true) else Cleanup.Finished(start)
    {
      InvStep(env, a);
      env := Apply(env, a);
      j := Walk(k);
      waits := j > 0;
    }

    /** One pass of unsubscribe under the mutex: it must wait exactly while calls are in flight. */
    method Leave(u: nat, x: nat) returns (waits: bool)
      requires Valid() && Enabled(env, UnsubTurn(u)) && env.unsubs[u].sub == x
      modifies this
      ensures Valid() && env == Apply(old(env), UnsubTurn(u))
      ensures waits <==> InFlight(env.pubs, x) > 0
    {
      InvStep(env, UnsubTurn(u));
      env := Apply(env, UnsubTurn(u));
      subs := subs[x := subs[x].(active := false)];
      waits := subs[x].calls > 0;
    }
  }
}
