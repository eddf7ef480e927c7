/**
 What cleanup does not reach: subscriptions made while it waits. Which of them are quiet when it
 ends, a run in which one is not, and when there are none.
 */
module PubSubCleanup {
  import opened PubSub
  import opened PubSubDrain

  /** Some unsubscribe of x has had its first turn. */
  ghost predicate Passed(s: State, x: nat) {
    exists u :: 0 <= u < |s.unsubs| && s.unsubs[u].sub == x && !s.unsubs[u].pc.Entering?
  }

  /** Cleanup has visited x. */
  ghost predicate Visited(c: Cleanup, x: nat) {
    (c.Sweeping? && c.k - 1 <= x < c.start) || (c.Finished? && x < c.start)
  }

  /** Only an unsubscribe or a visit of cleanup makes a subscription inactive. */
  ghost predicate Reasons(s: State) {
    forall x: nat :: x < |s.subs| && !s.subs[x].active ==> Passed(s, x) || Visited(s.cleanup, x)
  }

  lemma PassedStays(s: State, a: Action, x: nat)
    requires Inv(s) && Enabled(s, a) && Passed(s, x)
    ensures Passed(Apply(s, a), x)
  {
    var u :| 0 <= u < |s.unsubs| && s.unsubs[u].sub == x && !s.unsubs[u].pc.Entering?;
    var us := Apply(s, a).unsubs;
    assert u < |us| && us[u].sub == x && !us[u].pc.Entering?;
  }

  lemma ReasonsStep(s: State, a: Action)
    requires Inv(s) && Reasons(s) && Enabled(s, a)
    ensures Reasons(Apply(s, a))
  {
    var s' := Apply(s, a);
    if a.Discharge? { DischargeCounts(s, a.p); }
    forall x: nat | x < |s'.subs| && !s'.subs[x].active ensures Passed(s', x) || Visited(s'.cleanup, x) {
      if x < |s.subs| && Passed(s, x) {
        PassedStays(s, a, x);
      } else if a.UnsubTurn? && s.unsubs[a.u].sub == x {
        assert s'.unsubs[a.u].sub == x && !s'.unsubs[a.u].pc.Entering?;
      }
    }
  }

  lemma {:induction false} ReasonsRun(s: State, acts: seq<Action>, s': State)
    requires Inv(s) && Reasons(s) && Run(s, acts, s')
    ensures Reasons(s')
    decreases |acts|
  {
    if acts != [] {
      InvStep(s, acts[0]);
      ReasonsStep(s, acts[0]);
      ReasonsRun(Apply(s, acts[0]), acts[1..], s');
    }
  }

  /**
   A subscription made after cleanup began is inactive at its end exactly if some unsubscribe of it has had
   a turn, and quiet exactly if moreover no call of it is in flight.
   */
  lemma LateQuietIff(s0: State, acts: seq<Action>, s: State, x: nat)
    requires Init(s0) && Run(s0, acts, s) && s.cleanup.Finished? && s.cleanup.start <= x < |s.subs|
    ensures !s.subs[x].active <==> Passed(s, x)
    ensures Quiet(s.subs[x]) <==> Passed(s, x) && InFlight(s.pubs, x) == 0
  {
    InvRun(s0, acts, s);
    ReasonsRun(s0, acts, s);
    if Passed(s, x) {
      var u :| 0 <= u < |s.unsubs| && s.unsubs[u].sub == x && !s.unsubs[u].pc.Entering?;
      assert UnsubOk(s.subs, s.unsubs[u]);
    }
  }

  function Subscribes(acts: seq<Action>): nat {
    if acts == [] then 0 else (if acts[0].Subscribe? then 1 else 0) + Subscribes(acts[1..])
  }

  lemma StartStep(s: State, a: Action)
    requires Enabled(s, a) && !s.cleanup.Off?
    ensures var s' := Apply(s, a);
            !s'.cleanup.Off? && s'.cleanup.start == s.cleanup.start && |s'.subs| == |s.subs| + if a.Subscribe? then 1 else 0
  {
    if a.Discharge? { assert s.pubs[a.p].records[0] in s.pubs[a.p].records; }
  }

  lemma {:induction false} StartStays(s: State, acts: seq<Action>, s': State)
    requires Run(s, acts, s') && !s.cleanup.Off?
    ensures !s'.cleanup.Off? && s'.cleanup.start == s.cleanup.start && |s'.subs| == |s.subs| + Subscribes(acts)
    decreases |acts|
  {
    if acts != [] {
      StartStep(s, acts[0]);
      StartStays(Apply(s, acts[0]), acts[1..], s');
    }
  }

  /** Cleanup reaches all but the subscriptions made while it waited; if there are none, all are quiet at its end. */
  lemma CleanupReachesAll(s0: State, before: seq<Action>, s1: State, after: seq<Action>, s: State)
    requires Init(s0) && Run(s0, before, s1) && Enabled(s1, Clean) && Run(Apply(s1, Clean), after, s) && s.cleanup.Finished?
    ensures s.cleanup.start == |s1.subs| && |s.subs| == |s1.subs| + Subscribes(after)
    ensures forall x: nat :: x < |s1.subs| ==> Quiet(s.subs[x])
    ensures Subscribes(after) == 0 ==> forall x: nat :: x < |s.subs| ==> Quiet(s.subs[x])
  {
    InvRun(s0, before, s1);
    InvStep(s1, Clean);
    StartStays(Apply(s1, Clean), after, s);
    InvRun(Apply(s1, Clean), after, s);
  }

  /** The only subscription's call is in its handler when cleanup begins, and cleanup sleeps. */
  lemma CleanupSleeps(topic: string)
    requires topic != []
    ensures var s := State([Sub(topic, true, 1)], [Publisher([0], InHandler)], [], Off);
            && Enabled(s, Clean)
            && Apply(s, Clean) == State([Sub(topic, false, 1)], [Publisher([0], InHandler)], [], Sweeping(1, 1, true))
  {
    var s := State([Sub(topic, true, 1)], [Publisher([0], InHandler)], [], Off);
    assert Stop(s.subs, 1) == 1;
    assert Swept(s.subs, 1) == [Sub(topic, false, 1)];
  }

  /** The call ends and wakes cleanup, which goes on to its end. */
  lemma CleanupWakes(topic: string) returns (acts: seq<Action>)
    requires topic != []
    ensures Run(State([Sub(topic, false, 1), Sub(topic, true, 0)], [Publisher([0], Back)], [], Sweeping(1, 1, true)), acts,
                State([Sub(topic, false, 0), Sub(topic, true, 0)], [Publisher([], Ready)], [], Finished(1)))
  {
    var subs := [Sub(topic, false, 0), Sub(topic, true, 0)];
    var s3 := State([Sub(topic, false, 1), Sub(topic, true, 0)], [Publisher([0], Back)], [], Sweeping(1, 1, true));
    var s4 := State(subs, [Publisher([], Ready)], [], Sweeping(1, 1, false));
    var s5 := State(subs, [Publisher([], Ready)], [], Finished(1));
    assert Stop(subs, 1) == 0 && Swept(subs, 1) == subs;
    RunCons(s4, CleanTurn, [], s5);
    acts := [CleanTurn] + [];
    assert s3.subs[0 := Sub(topic, false, 0)] == subs && [0][1..] == [] && s3.pubs[0 := Publisher([], Ready)] == s4.pubs;
    RunCons(s3, Discharge(0), acts, s5);
    acts := [Discharge(0)] + acts;
  }

  /** While it sleeps the same topic is subscribed again. */
  lemma Meanwhile(topic: string) returns (acts: seq<Action>)
    requires topic != []
    ensures Run(State([Sub(topic, false, 1)], [Publisher([0], InHandler)], [], Sweeping(1, 1, true)), acts,
                State([Sub(topic, false, 0), Sub(topic, true, 0)], [Publisher([], Ready)], [], Finished(1)))
  {
    var s1 := State([Sub(topic, false, 1)], [Publisher([0], InHandler)], [], Sweeping(1, 1, true));
    var s2 := State([Sub(topic, false, 1), Sub(topic, true, 0)], [Publisher([0], InHandler)], [], Sweeping(1, 1, true));
    var s := State([Sub(topic, false, 0), Sub(topic, true, 0)], [Publisher([], Ready)], [], Finished(1));
    acts := CleanupWakes(topic);
    assert s2.pubs[0 := Publisher([0], Back)] == [Publisher([0], Back)];
    RunCons(s2, Return(0), acts, s);
    acts := [Return(0)] + acts;
    assert s1.subs + [Sub(topic, true, 0)] == s2.subs;
    RunCons(s1, Subscribe(topic), acts, s);
    acts := [Subscribe(topic)] + acts;
  }

  /** A run from an empty bus after which cleanup is over and a subscription is still active. */
  lemma LateSubscriberEscapes(topic: string) returns (s0: State, acts: seq<Action>, s: State)
    requires topic != []
    ensures Init(s0) && Run(s0, acts, s) && s.cleanup.Finished? && s.subs == [Sub(topic, false, 0), Sub(topic, true, 0)]
  {
    s0 := State([], [], [], Off);
    s := State([Sub(topic, false, 0), Sub(topic, true, 0)], [Publisher([], Ready)], [], Finished(1));
    acts := Meanwhile(topic);
    acts := Backwards(topic, acts, s);
    FirstPublish(topic);
    RunCons(State([Sub(topic, true, 0)], [], [], Off), Publish(topic), acts, s);
    acts := [Publish(topic)] + acts;
    assert [] + [Sub(topic, true, 0)] == [Sub(topic, true, 0)];
    RunCons(s0, Subscribe(topic), acts, s);
    acts := [Subscribe(topic)] + acts;
  }

  lemma Backwards(topic: string, rest: seq<Action>, s: State) returns (acts: seq<Action>)
    requires topic != []
    requires Run(State([Sub(topic, false, 1)], [Publisher([0], InHandler)], [], Sweeping(1, 1, true)), rest, s)
    ensures Run(State([Sub(topic, true, 1)], [Publisher([0], Ready)], [], Off), acts, s)
  {
    var s2 := State([Sub(topic, true, 1)], [Publisher([0], Ready)], [], Off);
    var s3 := State([Sub(topic, true, 1)], [Publisher([0], InHandler)], [], Off);
    CleanupSleeps(topic);
    RunCons(s3, Clean, rest, s);
    acts := [Clean] + rest;
    assert s2.pubs[0 := Publisher([0], InHandler)] == s3.pubs;
    RunCons(s2, Invoke(0), acts, s);
    acts := [Invoke(0)] + acts;
  }
}
