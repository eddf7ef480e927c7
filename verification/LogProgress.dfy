/**
 Progress in the log ring: from every reachable state, a producer or the consumer that runs
 alone ends its call within a bounded number of accesses, whatever the others were in the middle of,
 and with the right outcome.
 */
module LogProgress {
  import opened LogRing

  lemma RunCons(s: State, a: Action, acts: seq<Action>, s': State)
    requires Shape(s) && Enabled(s, a) && Run(Apply(s, a), acts, s')
    ensures Run(s, [a] + acts, s')
  {
    assert ([a] + acts)[1..] == acts;
  }

  ghost predicate AllAre(acts: seq<Action>, a: Action) {
    forall b :: b in acts ==> b == a
  }

  // ----- a producer alone -----

  /** Accesses left for a producer that runs alone: at most one failed CAS. */
  ghost function Left(s: State, pc: Producer): nat {
    match pc
    case LoadTail(e) => |e.text| + 8
    case LoadHead(e, pos) => |e.text| + if pos == s.enq then 7 else 10
    case Cas(e, pos) => |e.text| + if pos == s.enq then 6 else 9
    case Spin(e, _, _) => |e.text| + 5
    case Recheck(e, _) => |e.text| + 4
    case Copy(e, _, i) => 3 + if i <= |e.text| then |e.text| - i else 0
    case Seal(_, _) => 2
    case Publish(_, _) => 1
    case Dropping => 1
    case TimedOut(_, _) => 1
  }

  /** What a step of producer p leaves alone. */
  ghost predicate Untouched(s: State, s': State, p: nat) {
    && s'.cap == s.cap && s'.deq == s.deq && s'.popped == s.popped && s'.consumer == s.consumer
    && s'.producers - {p} == s.producers - {p}
  }

  /** Accepted: the line has the next ticket, and its slot is published. */
  ghost predicate Accepted(s: State, s': State, e: Entry) {
    s'.claimed == s.claimed + [e] && s'.dropped == s.dropped && Published(s', s.enq)
  }

  ghost predicate DroppedOne(s: State, s': State) {
    s'.claimed == s.claimed && s'.dropped == s.dropped + 1
  }

  /** The full test on a tail that may be out of date. */
  predicate Refuses(s: State, pos: nat) {
    Sub64(pos, s.deq) >= s.cap
  }

  /**
   A push is refused exactly if the tail it read is a lap ahead of the head, or behind the head, whatever
   room there is, as long as the tail read is less than 2^64 - capacity tickets old.
   */
  lemma RefusedIff(s: State, p: nat)
    requires Inv(s) && p in s.producers && s.producers[p].LoadHead? && s.deq <= s.producers[p].pos + (WORD - s.cap)
    ensures var pos := s.producers[p].pos;
            && (ApplyProducer(s, p, false).producers[p].Dropping? <==> Refuses(s, pos))
            && (Refuses(s, pos) <==> pos >= s.deq + s.cap || pos < s.deq)
  {
    var pos := s.producers[p].pos;
    assert ProducerOk(s, s.producers[p]);
    if pos < s.deq {
      assert (pos - s.deq) % WORD == pos - s.deq + WORD;
    }
  }

  /** The outcome of finishing the call of p from s. */
  ghost predicate Finished(s: State, s': State, p: nat)
    requires p in s.producers
  {
    var pc := s.producers[p];
    && p !in s'.producers && Untouched(s, s', p)
    && (Owner(pc) ==> s'.claimed == s.claimed && s'.dropped == s.dropped && Published(s', pc.pos))
    && (pc.Dropping? ==> DroppedOne(s, s'))
    && (pc.LoadTail? || pc.LoadHead? || pc.Cas? ==>
          if s.enq < s.deq + s.cap && !(pc.LoadHead? && Refuses(s, pc.pos)) then Accepted(s, s', pc.e) else DroppedOne(s, s'))
  }

  /** The full test reads a fresh tail right. */
  lemma FreshTest(s: State)
    requires Inv(s)
    ensures Sub64(s.enq, s.deq) >= s.cap <==> s.enq >= s.deq + s.cap
  {
  }

  /** One access: fewer are left, or the call is over; a compare-exchange that fails for no cause costs one more round. */
  lemma StepLeft(s: State, p: nat, spurious: bool)
    requires Inv(s) && p in s.producers
    ensures var s1 := ApplyProducer(s, p, spurious);
            Untouched(s, s1, p) && (p in s1.producers ==> Left(s1, s1.producers[p]) < Left(s, s.producers[p]) + if spurious then 3 else 0)
  {
    var pc := s.producers[p];
    assert ProducerOk(s, pc);
    if Owner(pc) { SeqIsTicket(s, p); }
  }

  /** The last access of a call. */
  lemma LastStep(s: State, p: nat, spurious: bool)
    requires Inv(s) && p in s.producers && p !in ApplyProducer(s, p, spurious).producers
    ensures Finished(s, ApplyProducer(s, p, spurious), p)
  {
    var s1, pc := ApplyProducer(s, p, spurious), s.producers[p];
    assert ProducerOk(s, pc);
    StepLeft(s, p, spurious);
    if pc.Publish? {
      assert Holds(pc, pc.pos);
      forall q | q in s1.producers ensures !Holds(s1.producers[q], pc.pos) {
        assert q != p && s1.producers[q] == s.producers[q];
      }
    }
  }

  /** What is left to do after one access is all that was left before. */
  lemma SeekBack(s: State, p: nat, spurious: bool, s': State)
    requires Inv(s) && p in s.producers && PreClaim(s.producers[p]) && p in ApplyProducer(s, p, spurious).producers
    requires Finished(ApplyProducer(s, p, spurious), s', p)
    ensures Finished(s, s', p)
  {
    assert ProducerOk(s, s.producers[p]);
    StepLeft(s, p, spurious);
    FreshTest(s);
  }

  lemma OwnerBack(s: State, p: nat, spurious: bool, s': State)
    requires Inv(s) && p in s.producers && Owner(s.producers[p]) && p in ApplyProducer(s, p, spurious).producers
    requires Finished(ApplyProducer(s, p, spurious), s', p)
    ensures Finished(s, s', p)
  {
    var s1, pc := ApplyProducer(s, p, spurious), s.producers[p];
    assert ProducerOk(s, pc);
    SeqIsTicket(s, p);
    StepLeft(s, p, spurious);
    assert Owner(s1.producers[p]) && s1.producers[p].pos == pc.pos && s1.claimed == s.claimed && s1.dropped == s.dropped;
  }

  /** How many of the accesses are told to fail. */
  ghost function Fails(weak: seq<bool>): nat {
    if weak == [] then 0 else Fails(weak[1..]) + if weak[0] then 1 else 0
  }

  /** The accesses of p, the k-th told to fail as weak says, and none after. */
  ghost predicate Scheduled(acts: seq<Action>, p: nat, weak: seq<bool>) {
    forall k :: 0 <= k < |acts| ==> acts[k] == Produce(p, k < |weak| && weak[k])
  }

  lemma ScheduledCons(acts: seq<Action>, p: nat, weak: seq<bool>)
    requires Scheduled(acts, p, if weak == [] then [] else weak[1..])
    ensures Scheduled([Produce(p, weak != [] && weak[0])] + acts, p, weak)
  {
  }

  /**
   Obstruction freedom: a push that runs alone ends, however often its compare-exchange fails for no cause before, and its line
   is accepted and published exactly when the ring has room at its fresh look, else counted as dropped.
   */
  lemma {:induction false} PushAlone(s: State, p: nat, weak: seq<bool>) returns (acts: seq<Action>, s': State)
    requires Inv(s) && p in s.producers
    ensures Run(s, acts, s') && Scheduled(acts, p, weak) && |acts| <= Left(s, s.producers[p]) + 3 * Fails(weak)
    ensures Finished(s, s', p)
    decreases Left(s, s.producers[p]) + 3 * Fails(weak)
  {
    var spurious, rest := weak != [] && weak[0], if weak == [] then [] else weak[1..];
    var a := Produce(p, spurious);
    var s1 := Apply(s, a);
    InvStep(s, a);
    StepLeft(s, p, spurious);
    if p !in s1.producers {
      acts, s' := [], s1;
      LastStep(s, p, spurious);
    } else {
      acts, s' := PushAlone(s1, p, rest);
      if PreClaim(s.producers[p]) { SeekBack(s, p, spurious, s'); } else { OwnerBack(s, p, spurious, s'); }
    }
    ScheduledCons(acts, p, weak);
    RunCons(s, a, acts, s');
    acts := [a] + acts;
  }

  // ----- the consumer alone -----

  ghost predicate OnlyPopped(s: State, s': State) {
    && s'.cap == s.cap && s'.producers == s.producers && s'.enq == s.enq && s'.claimed == s.claimed && s'.dropped == s.dropped
    && s'.consumer.Idle?
  }

  /** From the copy on, the pop runs to its end. */
  lemma {:induction false} FetchAlone(s: State) returns (acts: seq<Action>, s': State)
    requires Inv(s) && (s.consumer.Fetch? || s.consumer.Release? || s.consumer.Advance?)
    ensures Run(s, acts, s') && AllAre(acts, Consume)
    ensures OnlyPopped(s, s') && s.deq < s.enq == |s.claimed| && s'.deq == s.deq + 1 && s'.popped == s.popped + [s.claimed[s.deq]]
    decreases if s.consumer.Fetch? then MSG_MAX - |s.consumer.out| + 2 else if s.consumer.Release? then 1 else 0
  {
    var s1 := Apply(s, Consume);
    InvStep(s, Consume);
    if s.consumer.Advance? {
      acts, s' := [], s1;
    } else {
      acts, s' := FetchAlone(s1);
    }
    RunCons(s, Consume, acts, s');
    acts := [Consume] + acts;
  }

  /** A pop that has seen a line behind the head. */
  lemma LookAlone(s: State) returns (acts: seq<Action>, s': State)
    requires Inv(s) && s.consumer.ReadSeq?
    ensures Run(s, acts, s') && AllAre(acts, Consume) && acts != [] && OnlyPopped(s, s')
    ensures Published(s, s.deq) ==> s.deq < |s.claimed| && s'.deq == s.deq + 1 && s'.popped == s.popped + [s.claimed[s.deq]]
    ensures !Published(s, s.deq) ==> s' == s.(consumer := Idle)
  {
    var s1 := Apply(s, Consume);
    InvStep(s, Consume);
    assert SlotOk(s, s.deq);
    if Published(s, s.deq) {
      acts, s' := FetchAlone(s1);
    } else {
      acts, s' := [], s1;
    }
    RunCons(s, Consume, acts, s');
    acts := [Consume] + acts;
  }

  /** A pop that runs alone takes the next line exactly when it is published, and else changes nothing. */
  lemma PopAlone(s: State) returns (acts: seq<Action>, s': State)
    requires Inv(s) && s.consumer.Idle?
    ensures Run(s, acts, s') && AllAre(acts, Consume) && acts != [] && OnlyPopped(s, s')
    ensures Published(s, s.deq) ==> s.deq < |s.claimed| && s'.deq == s.deq + 1 && s'.popped == s.popped + [s.claimed[s.deq]]
    ensures !Published(s, s.deq) ==> s' == s
  {
    var s1 := Apply(s, Consume);
    InvStep(s, Consume);
    var s2 := Apply(s1, Consume);
    InvStep(s1, Consume);
    if s.deq >= s.enq {
      acts, s' := [], s2;
    } else {
      acts, s' := LookAlone(s2);
    }
    RunCons(s1, Consume, acts, s');
    acts := [Consume] + acts;
    RunCons(s, Consume, acts, s');
    acts := [Consume] + acts;
  }

  // ----- a push refused by an empty ring -----

  lemma {:induction false} RunAppend(s: State, acts: seq<Action>, s1: State, more: seq<Action>, s2: State)
    requires Run(s, acts, s1) && Run(s1, more, s2)
    ensures Run(s, acts + more, s2)
    decreases |acts|
  {
    if acts == [] {
      assert acts + more == more;
    } else {
      RunAppend(Apply(s, acts[0]), acts[1..], s1, more, s2);
      assert (acts + more)[1..] == acts[1..] + more;
    }
  }

  /** A whole push by a producer p that is not running, into a ring with room. */
  lemma PushNow(s: State, p: nat) returns (acts: seq<Action>, s': State)
    requires Inv(s) && p !in s.producers && s.enq < s.deq + s.cap
    ensures Run(s, acts, s') && Inv(s') && s'.producers == s.producers && s'.enq == s.enq + 1 && Published(s', s.enq)
    ensures s'.deq == s.deq && s'.consumer == s.consumer && s'.dropped == s.dropped && s'.cap == s.cap
  {
    var b := Begin(p, "x", 0);
    var s1 := Apply(s, b);
    InvStep(s, b);
    acts, s' := PushAlone(s1, p, []);
    InvRun(s1, acts, s');
    assert s'.producers == s'.producers - {p} == s1.producers - {p} == s.producers;
    RunCons(s, b, acts, s');
    acts := [b] + acts;
  }

  /** Producer 0 reads the tail of a new ring; then a line is pushed and popped. */
  lemma OutOfDate(s0: State) returns (acts: seq<Action>, s: State)
    requires Init(s0)
    ensures Run(s0, acts, s) && Inv(s) && s.cap == s0.cap && s.deq == s.enq == 1 && s.dropped == 0 && s.consumer.Idle?
    ensures s.producers.Keys == {0} && s.producers[0].LoadHead? && s.producers[0].pos == 0
  {
    InvInit(s0);
    var b, a := Begin(0, "x", 0), Produce(0, false);
    var s1 := Apply(s0, b);
    InvStep(s0, b);
    var s2 := Apply(s1, a);
    InvStep(s1, a);
    var push, s3 := PushNow(s2, 1);
    var pop, s4 := PopAlone(s3);
    InvRun(s3, pop, s4);
    RunAppend(s2, push, s3, pop, s4);
    RunCons(s1, a, push + pop, s4);
    RunCons(s0, b, [a] + (push + pop), s4);
    acts, s := [b] + ([a] + (push + pop)), s4;
  }

  /** A run from every new ring in which a push is refused by an empty ring. */
  lemma RefusedByEmptyRing(s0: State) returns (acts: seq<Action>, s: State)
    requires Init(s0)
    ensures Run(s0, acts, s) && s.deq == s.enq && s.dropped == 1 && s.producers == map[]
  {
    var first, s1 := OutOfDate(s0);
    assert Refuses(s1, 0) by { assert (0 - 1) % WORD == WORD - 1; }
    var rest, s2 := PushAlone(s1, 0, []);
    InvRun(s1, rest, s2);
    RunAppend(s0, first, s1, rest, s2);
    assert s2.producers == s2.producers - {0} == map[];
    acts, s := first + rest, s2;
  }
}
