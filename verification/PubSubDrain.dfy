/**
 The waits of unsubscribe and cleanup end: the calls in flight on an inactive subscription only
 drain, one per discharged record, and as long as there are any, some publisher can move.
 */
module PubSubDrain {
  import opened PubSub

  /** The step discharges a call record of subscription x. */
  ghost predicate Discharges(s: State, a: Action, x: nat)
    requires Enabled(s, a)
  {
    a.Discharge? && s.pubs[a.p].records[0] == x
  }

  /** How many steps of a run do. */
  ghost function Discharged(s: State, acts: seq<Action>, x: nat): nat
    decreases |acts|
  {
    if acts == [] || !Enabled(s, acts[0]) then 0
    else (if Discharges(s, acts[0], x) then 1 else 0) + Discharged(Apply(s, acts[0]), acts[1..], x)
  }

  lemma DischargeDrains(s: State, p: nat, x: nat)
    requires Inv(s) && Enabled(s, Discharge(p))
    ensures InFlight(Apply(s, Discharge(p)).pubs, x) + (if s.pubs[p].records[0] == x then 1 else 0) == InFlight(s.pubs, x)
  {
    var r := s.pubs[p].records;
    HeadTail(r, x);
    InFlightUpdate(s.pubs, p, Publisher(r[1..], Ready), x);
  }

  lemma StaysInactive(s: State, a: Action, x: nat)
    requires Inv(s) && Enabled(s, a) && x < |s.subs| && !s.subs[x].active
    ensures x < |Apply(s, a).subs| && !Apply(s, a).subs[x].active
  {
    if a.Discharge? { DischargeCounts(s, a.p); }
  }

  /** No step gives an inactive subscription a new call, and it stays inactive. */
  lemma StepDrains(s: State, a: Action, x: nat)
    requires Inv(s) && Enabled(s, a) && x < |s.subs| && !s.subs[x].active
    ensures var s' := Apply(s, a);
            && x < |s'.subs| && !s'.subs[x].active
            && InFlight(s'.pubs, x) + (if Discharges(s, a, x) then 1 else 0) == InFlight(s.pubs, x)
  {
    StaysInactive(s, a, x);
    match a
    case Publish(topic) =>
      SnapshotOnce(s.subs, topic, x);
      InFlightAppend(s.pubs, Publisher(Matching(s.subs, topic), Ready), x);
    case Invoke(p) => InFlightUpdate(s.pubs, p, s.pubs[p].(stage := InHandler), x);
    case Return(p) => InFlightUpdate(s.pubs, p, s.pubs[p].(stage := Back), x);
    case Discharge(p) => DischargeDrains(s, p, x);
    case Subscribe(_) =>
    case Unsubscribe(_) =>
    case UnsubTurn(_) =>
    case SpuriousUnsub(_) =>
    case Clean =>
    case CleanTurn =>
    case SpuriousClean =>
  }

  /** Over any run: calls in flight at the end plus calls discharged are the calls in flight at the start. */
  lemma {:induction false} InactiveDrains(s: State, acts: seq<Action>, s': State, x: nat)
    requires Inv(s) && Run(s, acts, s') && x < |s.subs| && !s.subs[x].active
    ensures x < |s'.subs| && !s'.subs[x].active
    ensures InFlight(s'.pubs, x) + Discharged(s, acts, x) == InFlight(s.pubs, x)
    decreases |acts|
  {
    if acts != [] {
      StepDrains(s, acts[0], x);
      InvStep(s, acts[0]);
      InactiveDrains(Apply(s, acts[0]), acts[1..], s', x);
    }
  }

  /** An unsubscriber moves on in place: its subscription is fixed, and its first turn is never undone. */
  lemma {:induction false} UnsubStays(s: State, acts: seq<Action>, s': State, u: nat)
    requires Inv(s) && Run(s, acts, s') && u < |s.unsubs| && !s.unsubs[u].pc.Entering?
    ensures u < |s'.unsubs| && s'.unsubs[u].sub == s.unsubs[u].sub && !s'.unsubs[u].pc.Entering?
    decreases |acts|
  {
    if acts != [] {
      InvStep(s, acts[0]);
      UnsubStays(Apply(s, acts[0]), acts[1..], s', u);
    }
  }

  /**
   An unsubscribe that has begun to wait is over once the calls in flight at that moment have been
   discharged: it is awake, and its next turn returns, unless cleanup has ended first (see LeftBehind).
   */
  lemma UnsubscribeReturns(s: State, acts: seq<Action>, s': State, u: nat)
    requires Inv(s) && Run(s, acts, s') && u < |s.unsubs| && !s.unsubs[u].pc.Entering?
    requires Discharged(s, acts, s.unsubs[u].sub) >= InFlight(s.pubs, s.unsubs[u].sub)
    ensures u < |s'.unsubs| && !s'.unsubs[u].pc.Sleeping?
    ensures !s'.cleanup.Finished? ==>
              s'.unsubs[u].pc.Done? || (Enabled(s', UnsubTurn(u)) && Apply(s', UnsubTurn(u)).unsubs[u].pc.Done?)
  {
    var x := s.unsubs[u].sub;
    assert UnsubOk(s.subs, s.unsubs[u]);
    InactiveDrains(s, acts, s', x);
    UnsubStays(s, acts, s', u);
    InvRun(s, acts, s');
    assert UnsubOk(s'.subs, s'.unsubs[u]) && s'.subs[x].calls == InFlight(s'.pubs, x) == 0;
  }

  lemma {:induction false} SomeRecord(pubs: seq<Publisher>, x: nat) returns (p: nat)
    requires InFlight(pubs, x) > 0
    ensures p < |pubs| && x in pubs[p].records
  {
    var n := |pubs| - 1;
    if x in pubs[n].records {
      p := n;
    } else {
      p := SomeRecord(pubs[..n], x);
    }
  }

  /** While a call is in flight, the publisher that owes it can move. */
  lemma PublisherCanMove(s: State, x: nat) returns (p: nat)
    requires Inv(s) && !s.cleanup.Finished? && x < |s.subs| && s.subs[x].calls > 0
    ensures p < |s.pubs| && x in s.pubs[p].records
    ensures Enabled(s, Invoke(p)) || Enabled(s, Return(p)) || Enabled(s, Discharge(p))
  {
    p := SomeRecord(s.pubs, x);
  }

  // ----- unsubscribers that cleanup leaves behind -----

  /** Every unsubscribe call has returned. */
  ghost predicate AllBack(s: State) {
    forall u :: 0 <= u < |s.unsubs| ==> s.unsubs[u].pc.Done?
  }

  /** Nobody is left behind if all unsubscribe calls are back when cleanup begins and none is made after. */
  lemma {:induction false} BackStays(s: State, acts: seq<Action>, s': State)
    requires Inv(s) && AllBack(s) && Run(s, acts, s') && forall a :: a in acts ==> !a.Unsubscribe?
    ensures AllBack(s')
    decreases |acts|
  {
    if acts != [] {
      assert acts[0] in acts;
      InvStep(s, acts[0]);
      BackStays(Apply(s, acts[0]), acts[1..], s');
    }
  }

  lemma RunCons(s: State, a: Action, acts: seq<Action>, s': State)
    requires Enabled(s, a) && Run(Apply(s, a), acts, s')
    ensures Run(s, [a] + acts, s')
  {
    assert ([a] + acts)[1..] == acts;
  }

  /** The accesses a publisher still has before it. */
  ghost function Load(q: Publisher): nat {
    if q.records == [] then 0
    else 3 * |q.records| - (match q.stage case Ready => 0 case InHandler => 1 case Back => 2)
  }

  ghost function Work(pubs: seq<Publisher>): nat {
    if pubs == [] then 0 else Work(pubs[..|pubs| - 1]) + Load(pubs[|pubs| - 1])
  }

  lemma {:induction false} WorkUpdate(pubs: seq<Publisher>, p: nat, q: Publisher)
    requires p < |pubs|
    ensures Work(pubs[p := q]) == Work(pubs) - Load(pubs[p]) + Load(q)
  {
    var n := |pubs| - 1;
    if p < n {
      assert pubs[p := q][..n] == pubs[..n][p := q];
      WorkUpdate(pubs[..n], p, q);
    } else {
      assert pubs[p := q][..n] == pubs[..n];
    }
  }

  /** A publisher that owes a call moves, and nobody else does but to wake up. */
  lemma PublisherMoves(s: State, p: nat) returns (a: Action)
    requires Inv(s) && !s.cleanup.Finished? && p < |s.pubs| && s.pubs[p].records != []
    ensures Enabled(s, a) && !a.Unsubscribe? && !Apply(s, a).cleanup.Finished?
    ensures Work(Apply(s, a).pubs) < Work(s.pubs) && (AllBack(Apply(s, a)) <==> AllBack(s))
  {
    var q := s.pubs[p];
    a := match q.stage case Ready => Invoke(p) case InHandler => Return(p) case Back => Discharge(p);
    var s' := Apply(s, a);
    WorkUpdate(s.pubs, p, s'.pubs[p]);
    if q.stage.Back? {
      forall u | 0 <= u < |s.unsubs| ensures s'.unsubs[u].pc.Done? <==> s.unsubs[u].pc.Done? { }
    }
  }

  /** With no call owed the next turn of cleanup is its last. */
  lemma LastTurn(s: State) returns (a: Action)
    requires Inv(s) && !s.cleanup.Finished? && forall p :: 0 <= p < |s.pubs| ==> s.pubs[p].records == []
    ensures Enabled(s, a) && !a.Unsubscribe? && Apply(s, a).cleanup.Finished? && Apply(s, a).unsubs == s.unsubs
  {
    forall x: nat | x < |s.subs| ensures s.subs[x].calls == 0 { NoneInFlight(s.pubs, 0, x); }
    a := if s.cleanup.Off? then Clean else CleanTurn;
  }

  /** Wherever it stands, cleanup can end by steps of publishers and its own alone. */
  lemma {:induction false} CleanupCanEnd(s: State) returns (acts: seq<Action>, s': State)
    requires Inv(s) && !s.cleanup.Finished?
    ensures Run(s, acts, s') && s'.cleanup.Finished? && (AllBack(s') <==> AllBack(s))
    ensures forall a :: a in acts ==> !a.Unsubscribe?
    decreases Work(s.pubs)
  {
    var a;
    if p: nat :| p < |s.pubs| && s.pubs[p].records != [] {
      a := PublisherMoves(s, p);
      InvStep(s, a);
      acts, s' := CleanupCanEnd(Apply(s, a));
    } else {
      a := LastTurn(s);
      acts, s' := [], Apply(s, a);
    }
    RunCons(s, a, acts, s');
    acts := [a] + acts;
  }

  /** The run ends cleanup, no unsubscribe is called in it, and afterwards one is still inside. */
  ghost predicate Strands(s: State, acts: seq<Action>, s': State) {
    Run(s, acts, s') && s'.cleanup.Finished? && (forall a :: a in acts ==> !a.Unsubscribe?) && !AllBack(s')
  }

  /** Exactly while an unsubscriber is inside, cleanup can end and free its subscription under it. */
  lemma LeftBehindIff(s: State)
    requires Inv(s) && !s.cleanup.Finished?
    ensures (exists acts, s' :: Strands(s, acts, s')) <==> !AllBack(s)
  {
    if AllBack(s) {
      forall acts, s' ensures !Strands(s, acts, s') {
        if Strands(s, acts, s') { BackStays(s, acts, s'); }
      }
    } else {
      var acts, s' := CleanupCanEnd(s);
      assert Strands(s, acts, s');
    }
  }

  /** One subscription with a call in its handler, and an unsubscriber. */
  function Scene(topic: string, active: bool, stage: Stage, pc: Wait, c: Cleanup): State {
    State([Sub(topic, active, 1)], [Publisher([0], stage)], [Unsub(0, pc)], c)
  }

  function End(topic: string, c: Cleanup): State {
    State([Sub(topic, false, 0)], [Publisher([], Ready)], [Unsub(0, Awake)], c)
  }

  /** The call ends; cleanup comes before the unsubscriber. */
  lemma CleanupFirst(topic: string) returns (acts: seq<Action>)
    ensures Run(Scene(topic, false, Back, Sleeping, Sweeping(1, 1, true)), acts, End(topic, Cleanup.Finished(1)))
  {
    var s0 := Scene(topic, false, Back, Sleeping, Sweeping(1, 1, true));
    var s1, s2 := End(topic, Sweeping(1, 1, false)), End(topic, Cleanup.Finished(1));
    assert Stop(s1.subs, 1) == 0 && Swept(s1.subs, 1) == s1.subs;
    RunCons(s1, CleanTurn, [], s2);
    acts := [CleanTurn] + [];
    assert s0.subs[0 := Sub(topic, false, 0)] == s1.subs && [0][1..] == [] && s0.pubs[0 := Publisher([], Ready)] == s1.pubs;
    assert WakeAll(s0.unsubs) == s1.unsubs;
    RunCons(s0, Discharge(0), acts, s2);
    acts := [Discharge(0)] + acts;
  }

  /** The unsubscriber sleeps, then cleanup begins and sleeps too. */
  lemma BothSleep(topic: string, rest: seq<Action>, s: State) returns (acts: seq<Action>)
    requires Run(Scene(topic, false, Back, Sleeping, Sweeping(1, 1, true)), rest, s)
    ensures Run(Scene(topic, true, InHandler, Entering, Off), acts, s)
  {
    var s0 := Scene(topic, true, InHandler, Entering, Off);
    var s1 := Scene(topic, false, InHandler, Sleeping, Off);
    var s2 := Scene(topic, false, InHandler, Sleeping, Sweeping(1, 1, true));
    assert s2.pubs[0 := Publisher([0], Back)] == [Publisher([0], Back)];
    RunCons(s2, Return(0), rest, s);
    acts := [Return(0)] + rest;
    assert Stop(s1.subs, 1) == 1 && Swept(s1.subs, 1) == s1.subs;
    RunCons(s1, Clean, acts, s);
    acts := [Clean] + acts;
    assert Retire(s0.subs, 0) == s1.subs && s0.unsubs[0 := Unsub(0, Sleeping)] == s1.unsubs;
    RunCons(s0, UnsubTurn(0), acts, s);
    acts := [UnsubTurn(0)] + acts;
  }

  lemma Starts(topic: string, rest: seq<Action>, s: State) returns (acts: seq<Action>)
    requires topic != [] && Run(Scene(topic, true, InHandler, Entering, Off), rest, s)
    ensures Run(State([Sub(topic, true, 1)], [Publisher([0], Ready)], [], Off), acts, s)
  {
    var s0 := State([Sub(topic, true, 1)], [Publisher([0], Ready)], [], Off);
    var s1 := State([Sub(topic, true, 1)], [Publisher([0], InHandler)], [], Off);
    assert s1.unsubs + [Unsub(0, Entering)] == [Unsub(0, Entering)];
    RunCons(s1, Unsubscribe(0), rest, s);
    acts := [Unsubscribe(0)] + rest;
    assert s0.pubs[0 := Publisher([0], InHandler)] == s1.pubs;
    RunCons(s0, Invoke(0), acts, s);
    acts := [Invoke(0)] + acts;
  }

  lemma FirstPublish(topic: string)
    requires topic != []
    ensures var s := State([Sub(topic, true, 0)], [], [], Off);
            && Enabled(s, Publish(topic))
            && Apply(s, Publish(topic)) == State([Sub(topic, true, 1)], [Publisher([0], Ready)], [], Off)
  {
    var subs := [Sub(topic, true, 0)];
    assert Bump(subs, topic) == [Sub(topic, true, 1)];
    assert subs[..0] == [] && Matching(subs, topic) == [0] + Matching(subs[..0], topic);
    assert [] + [Publisher([0], Ready)] == [Publisher([0], Ready)] && [0] + [] == [0];
  }

  /** A run from an empty bus after which cleanup has freed the subscriptions with an unsubscriber still inside its wait. */
  lemma LeftBehind(topic: string) returns (s0: State, acts: seq<Action>, s: State)
    requires topic != []
    ensures Init(s0) && Run(s0, acts, s) && s.cleanup.Finished? && s.unsubs == [Unsub(0, Awake)] && forall a :: !Enabled(s, a)
  {
    s0, s := State([], [], [], Off), End(topic, Cleanup.Finished(1));
    acts := CleanupFirst(topic);
    acts := BothSleep(topic, acts, s);
    acts := Starts(topic, acts, s);
    FirstPublish(topic);
    RunCons(State([Sub(topic, true, 0)], [], [], Off), Publish(topic), acts, s);
    acts := [Publish(topic)] + acts;
    assert [] + [Sub(topic, true, 0)] == [Sub(topic, true, 0)];
    RunCons(s0, Subscribe(topic), acts, s);
    acts := [Subscribe(topic)] + acts;
  }
}
