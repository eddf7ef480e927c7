/**
 Who hears what on the bus: over every run, a subscription gets exactly one call per publish of its own topic
 while it is active, it is active from its subscribe until an unsubscribe or cleanup reaches it,
 and every call record runs the handler exactly once.
 */
module PubSubTopics {
  import opened PubSub
  import opened PubSubDrain

  // ----- one publish -----

  /** The subscription is to hear a publish of this topic. */
  ghost predicate Hears(subs: seq<Sub>, x: nat, topic: string) {
    x < |subs| && subs[x].active && subs[x].topic == topic
  }

  /** A publish gives one record to each active subscription with that very topic, and touches no other and no earlier publisher. */
  lemma PublishReaches(s: State, topic: string, x: nat)
    requires Inv(s) && Enabled(s, Publish(topic)) && x < |s.subs|
    ensures var s', n := Apply(s, Publish(topic)), if Hears(s.subs, x, topic) then 1 else 0;
            && |s'.subs| == |s.subs| && s'.subs[x] == s.subs[x].(calls := s.subs[x].calls + n)
            && |s'.pubs| == |s.pubs| + 1 && s'.pubs[..|s.pubs|] == s.pubs && s'.pubs[|s.pubs|].stage.Ready?
            && multiset(s'.pubs[|s.pubs|].records)[x] == n
  {
    SnapshotOnce(s.subs, topic, x);
  }

  ghost predicate Descending(r: seq<nat>, bound: nat) {
    && (forall i :: 0 <= i < |r| ==> r[i] < bound)
    && (forall i, j :: 0 <= i < j < |r| ==> r[j] < r[i])
  }

  /** Handlers are called newest subscription first. */
  lemma {:induction false} NewestFirst(subs: seq<Sub>, topic: string)
    ensures Descending(Matching(subs, topic), |subs|)
  {
    if subs != [] {
      var n := |subs| - 1;
      var tail := Matching(subs[..n], topic);
      NewestFirst(subs[..n], topic);
      assert Descending(tail, n) && Descending([n] + tail, n + 1) && Descending([] + tail, n + 1);
    }
  }

  // ----- topics and lifetimes over runs -----

  /** The topics subscribed to, in order. */
  ghost function Topics(acts: seq<Action>): seq<string> {
    if acts == [] then [] else (if acts[0].Subscribe? then [acts[0].topic] else []) + Topics(acts[1..])
  }

  ghost function TopicsOf(subs: seq<Sub>): seq<string> {
    seq(|subs|, i requires 0 <= i < |subs| => subs[i].topic)
  }

  lemma StepTopics(s: State, a: Action)
    requires Inv(s) && Enabled(s, a)
    ensures TopicsOf(Apply(s, a).subs) == TopicsOf(s.subs) + if a.Subscribe? then [a.topic] else []
  {
    if a.Discharge? { DischargeCounts(s, a.p); }
  }

  lemma Joined(a: seq<string>, b: seq<string>, c: seq<string>)
    ensures (a + b) + c == a + (b + c) && a + [] == a && [] + a == a
  {
  }

  /** The subscriptions are those the run has made, each with its topic. */
  lemma {:induction false} TopicsAsSubscribed(s: State, acts: seq<Action>, s': State)
    requires Inv(s) && Run(s, acts, s')
    ensures TopicsOf(s'.subs) == TopicsOf(s.subs) + Topics(acts)
    decreases |acts|
  {
    if acts == [] {
      Joined(TopicsOf(s.subs), [], []);
    } else {
      StepTopics(s, acts[0]);
      InvStep(s, acts[0]);
      TopicsAsSubscribed(Apply(s, acts[0]), acts[1..], s');
      Joined(TopicsOf(s.subs), if acts[0].Subscribe? then [acts[0].topic] else [], Topics(acts[1..]));
    }
  }

  /** The step is a turn of an unsubscribe for x, or one in which cleanup visits x. */
  ghost predicate Retires(s: State, a: Action, x: nat)
    requires Enabled(s, a)
  {
    || (a.UnsubTurn? && s.unsubs[a.u].sub == x)
    || (a.Clean? && Stop(s.subs, |s.subs|) - 1 <= x < |s.subs|)
    || (a.CleanTurn? && Stop(s.subs, s.cleanup.k) - 1 <= x < s.cleanup.k)
  }

  ghost predicate Retired(s: State, acts: seq<Action>, x: nat)
    decreases |acts|
  {
    acts != [] && Enabled(s, acts[0]) && (Retires(s, acts[0], x) || Retired(Apply(s, acts[0]), acts[1..], x))
  }

  lemma StepLife(s: State, a: Action, x: nat)
    requires Inv(s) && Enabled(s, a) && x < |Apply(s, a).subs|
    ensures Apply(s, a).subs[x].active <==> (x < |s.subs| ==> s.subs[x].active) && !Retires(s, a, x)
  {
    if a.Discharge? { DischargeCounts(s, a.p); }
  }

  /** Nothing retires a subscription that is not there yet. */
  lemma NotYet(s: State, a: Action, x: nat)
    requires Inv(s) && Enabled(s, a) && x >= |s.subs|
    ensures !Retires(s, a, x)
  {
  }

  /** A subscription is active exactly from its subscribe until the run retires it. */
  lemma {:induction false} ActiveUntilRetired(s: State, acts: seq<Action>, s': State, x: nat)
    requires Inv(s) && Run(s, acts, s') && x < |s'.subs|
    ensures s'.subs[x].active <==> (x < |s.subs| ==> s.subs[x].active) && !Retired(s, acts, x)
    decreases |acts|
  {
    if acts != [] {
      var s1 := Apply(s, acts[0]);
      InvStep(s, acts[0]);
      if x < |s1.subs| { StepLife(s, acts[0], x); } else { LaterHere(s, acts[0], x); }
      ActiveUntilRetired(s1, acts[1..], s', x);
    }
  }

  lemma LaterHere(s: State, a: Action, x: nat)
    requires Inv(s) && Enabled(s, a) && x >= |Apply(s, a).subs|
    ensures x >= |s.subs| && !Retires(s, a, x)
  {
    StepTopics(s, a);
    assert |TopicsOf(Apply(s, a).subs)| >= |TopicsOf(s.subs)|;
    NotYet(s, a, x);
  }

  // ----- calls over runs -----

  /** The publishes of a run that x is to hear. */
  ghost function Heard(s: State, acts: seq<Action>, x: nat): nat
    decreases |acts|
  {
    if acts == [] || !Enabled(s, acts[0]) then 0
    else (if acts[0].Publish? && Hears(s.subs, x, acts[0].topic) then 1 else 0) + Heard(Apply(s, acts[0]), acts[1..], x)
  }

  lemma StepCalls(s: State, a: Action, x: nat)
    requires Inv(s) && Enabled(s, a)
    ensures InFlight(Apply(s, a).pubs, x) + (if Discharges(s, a, x) then 1 else 0)
         == InFlight(s.pubs, x) + (if a.Publish? && Hears(s.subs, x, a.topic) then 1 else 0)
  {
    match a
    case Publish(topic) =>
      SnapshotOnce(s.subs, topic, x);
      InFlightAppend(s.pubs, Publisher(Matching(s.subs, topic), Ready), x);
    case Invoke(p) => InFlightUpdate(s.pubs, p, s.pubs[p].(stage := InHandler), x);
    case Return(p) => InFlightUpdate(s.pubs, p, s.pubs[p].(stage := Back), x);
    case Discharge(p) => DischargeDrains(s, p, x);
    case Subscribe(_) =>
    case Unsubscribe(_) =>
    case UnsubTurn(_) =>
    case SpuriousUnsub(_) =>
    case Clean =>
    case CleanTurn =>
    case SpuriousClean =>
  }

  /** Over any run: the calls made to x are the publishes of its own topic while it was active, one each. */
  lemma {:induction false} HearsItsTopic(s: State, acts: seq<Action>, s': State, x: nat)
    requires Inv(s) && Run(s, acts, s')
    ensures InFlight(s'.pubs, x) + Discharged(s, acts, x) == InFlight(s.pubs, x) + Heard(s, acts, x)
    decreases |acts|
  {
    if acts != [] {
      StepCalls(s, acts[0], x);
      InvStep(s, acts[0]);
      HearsItsTopic(Apply(s, acts[0]), acts[1..], s', x);
    }
  }

  // ----- every record runs the handler once -----

  ghost predicate Invokes(s: State, a: Action, x: nat)
    requires Enabled(s, a)
  {
    a.Invoke? && s.pubs[a.p].records[0] == x
  }

  ghost function Invoked(s: State, acts: seq<Action>, x: nat): nat
    decreases |acts|
  {
    if acts == [] || !Enabled(s, acts[0]) then 0
    else (if Invokes(s, acts[0], x) then 1 else 0) + Invoked(Apply(s, acts[0]), acts[1..], x)
  }

  /** The call of a publisher whose handler has been entered and which is not discharged yet. */
  ghost predicate Inside(q: Publisher, x: nat) {
    !q.stage.Ready? && q.records != [] && q.records[0] == x
  }

  ghost function Entered(pubs: seq<Publisher>, x: nat): nat {
    if pubs == [] then 0 else Entered(pubs[..|pubs| - 1], x) + if Inside(pubs[|pubs| - 1], x) then 1 else 0
  }

  lemma {:induction false} EnteredUpdate(pubs: seq<Publisher>, p: nat, q: Publisher, x: nat)
    requires p < |pubs|
    ensures Entered(pubs[p := q], x) == Entered(pubs, x) - (if Inside(pubs[p], x) then 1 else 0) + if Inside(q, x) then 1 else 0
  {
    var n := |pubs| - 1;
    if p < n {
      assert pubs[p := q][..n] == pubs[..n][p := q];
      EnteredUpdate(pubs[..n], p, q, x);
    } else {
      assert pubs[p := q][..n] == pubs[..n];
    }
  }

  lemma StepInvokes(s: State, a: Action, x: nat)
    requires Inv(s) && Enabled(s, a)
    ensures Entered(Apply(s, a).pubs, x) + (if Discharges(s, a, x) then 1 else 0)
         == Entered(s.pubs, x) + (if Invokes(s, a, x) then 1 else 0)
  {
    match a
    case Publish(topic) =>
      assert (s.pubs + [Publisher(Matching(s.subs, topic), Ready)])[..|s.pubs|] == s.pubs;
    case Invoke(p) => EnteredUpdate(s.pubs, p, s.pubs[p].(stage := InHandler), x);
    case Return(p) => EnteredUpdate(s.pubs, p, s.pubs[p].(stage := Back), x);
    case Discharge(p) => EnteredUpdate(s.pubs, p, Publisher(s.pubs[p].records[1..], Ready), x);
    case Subscribe(_) =>
    case Unsubscribe(_) =>
    case UnsubTurn(_) =>
    case SpuriousUnsub(_) =>
    case Clean =>
    case CleanTurn =>
    case SpuriousClean =>
  }

  lemma {:induction false} InvokedOnce(s: State, acts: seq<Action>, s': State, x: nat)
    requires Inv(s) && Run(s, acts, s')
    ensures Entered(s'.pubs, x) + Discharged(s, acts, x) == Entered(s.pubs, x) + Invoked(s, acts, x)
    decreases |acts|
  {
    if acts != [] {
      StepInvokes(s, acts[0], x);
      InvStep(s, acts[0]);
      InvokedOnce(Apply(s, acts[0]), acts[1..], s', x);
    }
  }

  /** From an empty bus, with no call in flight on x: its handler has run once per publish of its topic while it was active. */
  lemma HandlerRunsPerPublish(s0: State, acts: seq<Action>, s: State, x: nat)
    requires Init(s0) && Run(s0, acts, s) && x < |s.subs| && s.subs[x].calls == 0
    ensures x < |Topics(acts)| && s.subs[x].topic == Topics(acts)[x]
    ensures s.subs[x].active <==> !Retired(s0, acts, x)
    ensures Invoked(s0, acts, x) == Heard(s0, acts, x)
  {
    FromEmptyBus(s0, acts, s, x);
    ActiveUntilRetired(s0, acts, s, x);
    HearsItsTopic(s0, acts, s, x);
    InvokedOnce(s0, acts, s, x);
    assert InFlight(s.pubs, x) == 0 by { CallsAreCounted(s0, acts, s, x); }
    EnteredInFlight(s.pubs, x);
  }

  lemma FromEmptyBus(s0: State, acts: seq<Action>, s: State, x: nat)
    requires Init(s0) && Run(s0, acts, s) && x < |s.subs|
    ensures x < |Topics(acts)| && s.subs[x].topic == Topics(acts)[x]
  {
    TopicsAsSubscribed(s0, acts, s);
    assert TopicsOf(s0.subs) == [];
    Joined(Topics(acts), [], []);
    assert TopicsOf(s.subs)[x] == s.subs[x].topic;
  }

  lemma {:induction false} EnteredInFlight(pubs: seq<Publisher>, x: nat)
    ensures Entered(pubs, x) <= InFlight(pubs, x)
  {
    if pubs != [] {
      var q := pubs[|pubs| - 1];
      EnteredInFlight(pubs[..|pubs| - 1], x);
      if Inside(q, x) { assert x in q.records; }
    }
  }
}
