/**
 Which pushes the log ring drops: exactly the refused calls and the pushes whose look at the head
 finds the ring full. Everything else that is pushed is accepted, whatever the interleaving and
 however often the compare-exchange fails for no cause.
 */
module LogDrops {
  import opened LogRing
  import opened LogProgress

  /** A look at the head that finds the ring full for the tail read before. */
  ghost predicate RefusedLook(s: State, a: Action) {
    a.Produce? && a.p in s.producers && s.producers[a.p].LoadHead? && Refuses(s, s.producers[a.p].pos)
  }

  /** Before its claim a push stays a push of the same line, unless a look at the head refuses it. */
  lemma SeekOutcome(s: State, p: nat, spurious: bool)
    requires Shape(s) && p in s.producers && (s.producers[p].LoadTail? || s.producers[p].LoadHead? || s.producers[p].Cas?)
    ensures var s', pc := ApplyProducer(s, p, spurious), s.producers[p];
            && p in s'.producers && s'.dropped == s.dropped
            && (s'.producers[p].Dropping? <==> RefusedLook(s, Produce(p, spurious)))
            && (!s'.producers[p].Dropping? ==> s'.producers[p].e == pc.e)
            && (s'.claimed != s.claimed <==> pc.Cas? && pc.pos == s.enq && !spurious)
  {
    var pc := s.producers[p];
    if pc.Cas? && pc.pos == s.enq && !spurious {
      assert |s.claimed + [pc.e]| != |s.claimed|;
    }
  }

  /** In terms of head and tail, for a tail less than 2^64 - capacity tickets old. */
  lemma DropsIff(s: State, p: nat, spurious: bool)
    requires Inv(s) && p in s.producers && (s.producers[p].LoadTail? || s.producers[p].LoadHead? || s.producers[p].Cas?)
    requires s.producers[p].LoadHead? ==> s.deq <= s.producers[p].pos + (WORD - s.cap)
    ensures var s', pc := ApplyProducer(s, p, spurious), s.producers[p];
            p in s'.producers && (s'.producers[p].Dropping? <==> pc.LoadHead? && (pc.pos >= s.deq + s.cap || pc.pos < s.deq))
  {
    SeekOutcome(s, p, spurious);
    if s.producers[p].LoadHead? { RefusedIff(s, p); }
  }

  // ----- over runs -----

  ghost function Droppers(ps: map<nat, Producer>): set<nat> {
    set p | p in ps && ps[p].Dropping?
  }

  /** Refused calls and refused looks of a run. */
  ghost function Refusals(s: State, acts: seq<Action>): nat
    decreases |acts|
  {
    if acts == [] || !Shape(s) || !Enabled(s, acts[0]) then 0
    else (if acts[0].Refuse? || RefusedLook(s, acts[0]) then 1 else 0) + Refusals(Apply(s, acts[0]), acts[1..])
  }

  /** Calls with a line that is not empty, and refused calls. */
  ghost function Attempts(acts: seq<Action>): nat {
    if acts == [] then 0 else (if acts[0].Begin? || acts[0].Refuse? then 1 else 0) + Attempts(acts[1..])
  }

  lemma DroppersMove(ps: map<nat, Producer>, p: nat, pc: Producer)
    ensures |Droppers(ps[p := pc])| == |Droppers(ps - {p})| + if pc.Dropping? then 1 else 0
    ensures |Droppers(ps)| == |Droppers(ps - {p})| + if p in ps && ps[p].Dropping? then 1 else 0
  {
    var rest := Droppers(ps - {p});
    assert Droppers(ps[p := pc]) == if pc.Dropping? then rest + {p} else rest;
    assert Droppers(ps) == if p in ps && ps[p].Dropping? then rest + {p} else rest;
  }

  lemma ProduceCounts(s: State, p: nat, spurious: bool)
    requires Inv(s) && p in s.producers
    ensures var s' := ApplyProducer(s, p, spurious);
            && s'.dropped + |Droppers(s'.producers)|
            == s.dropped + |Droppers(s.producers)| + (if RefusedLook(s, Produce(p, spurious)) then 1 else 0)
            && s'.attempted == s.attempted
  {
    var s', pc := ApplyProducer(s, p, spurious), s.producers[p];
    assert ProducerOk(s, pc);
    if Owner(pc) { SeqIsTicket(s, p); }
    if p in s'.producers {
      assert s'.producers == s.producers[p := s'.producers[p]];
      DroppersMove(s.producers, p, s'.producers[p]);
    } else {
      assert s'.producers == s.producers - {p};
      DroppersMove(s.producers, p, pc);
    }
  }

  lemma StepCounts(s: State, a: Action)
    requires Inv(s) && Enabled(s, a)
    ensures var s' := Apply(s, a);
            && s'.dropped + |Droppers(s'.producers)|
            == s.dropped + |Droppers(s.producers)| + (if a.Refuse? || RefusedLook(s, a) then 1 else 0)
            && s'.attempted == s.attempted + (if a.Begin? || a.Refuse? then 1 else 0)
  {
    match a
    case Produce(p, spurious) => ProduceCounts(s, p, spurious);
    case Refuse(p) => DroppersMove(s.producers, p, Dropping);
    case Begin(p, line, level) => DroppersMove(s.producers, p, LoadTail(Entry(Fit(line), level)));
    case Skip =>
    case Consume =>
  }

  /** Drops counted and about to be counted are exactly the refusals of the run. */
  lemma {:induction false} DropsAreRefusals(s: State, acts: seq<Action>, s': State)
    requires Inv(s) && Run(s, acts, s')
    ensures s'.dropped + |Droppers(s'.producers)| == s.dropped + |Droppers(s.producers)| + Refusals(s, acts)
    ensures s'.attempted == s.attempted + Attempts(acts)
    decreases |acts|
  {
    if acts != [] {
      StepCounts(s, acts[0]);
      InvStep(s, acts[0]);
      DropsAreRefusals(Apply(s, acts[0]), acts[1..], s');
    }
  }

  /** With no call in progress: every call was accepted, once, or refused, and drops are the refusals. */
  lemma AcceptedUnlessRefused(s0: State, acts: seq<Action>, s: State)
    requires Init(s0) && Run(s0, acts, s) && s.producers == map[]
    ensures s.dropped == Refusals(s0, acts) && |s.claimed| + s.dropped == Attempts(acts)
  {
    InvInit(s0);
    DropsAreRefusals(s0, acts, s);
    InvRun(s0, acts, s);
    assert Droppers(s0.producers) == {} && Droppers(s.producers) == {} && PreClaims(s.producers) == {};
  }

  // ----- line by line -----

  predicate Seeks(pc: Producer, e: Entry) {
    (pc.LoadTail? || pc.LoadHead? || pc.Cas?) && pc.e == e
  }

  ghost function Seekers(ps: map<nat, Producer>, e: Entry): set<nat> {
    set p | p in ps && Seeks(ps[p], e)
  }

  /** How often a line was offered. */
  ghost function Offered(acts: seq<Action>, e: Entry): nat {
    if acts == [] then 0 else (if IsOffer(acts[0], e) then 1 else 0) + Offered(acts[1..], e)
  }

  /** A call with that line, of which only what fits a slot is kept. */
  ghost predicate IsOffer(a: Action, e: Entry) {
    a.Begin? && e == Entry(Fit(a.line), a.level)
  }

  ghost predicate TurnsAway(s: State, a: Action, e: Entry) {
    RefusedLook(s, a) && s.producers[a.p].e == e
  }

  ghost function TurnedAway(s: State, acts: seq<Action>, e: Entry): nat
    decreases |acts|
  {
    if acts == [] || !Shape(s) || !Enabled(s, acts[0]) then 0
    else (if TurnsAway(s, acts[0], e) then 1 else 0) + TurnedAway(Apply(s, acts[0]), acts[1..], e)
  }

  lemma SeekersMove(ps: map<nat, Producer>, p: nat, pc: Producer, e: Entry)
    ensures |Seekers(ps[p := pc], e)| == |Seekers(ps - {p}, e)| + if Seeks(pc, e) then 1 else 0
    ensures |Seekers(ps, e)| == |Seekers(ps - {p}, e)| + if p in ps && Seeks(ps[p], e) then 1 else 0
  {
    var rest := Seekers(ps - {p}, e);
    assert Seekers(ps[p := pc], e) == if Seeks(pc, e) then rest + {p} else rest;
    assert Seekers(ps, e) == if p in ps && Seeks(ps[p], e) then rest + {p} else rest;
  }

  ghost function Count(s: State, e: Entry): nat {
    multiset(s.claimed)[e] + |Seekers(s.producers, e)|
  }

  /** An access moves its own producer and no other. */
  lemma Moved(s: State, p: nat, spurious: bool)
    requires Shape(s) && p in s.producers
    ensures var s' := ApplyProducer(s, p, spurious);
            s'.producers == if p in s'.producers then s.producers[p := s'.producers[p]] else s.producers - {p}
  {
  }

  /** The line of a push is still sought, or accepted, or turned away. */
  lemma MovedLine(s: State, p: nat, spurious: bool, e: Entry)
    requires Shape(s) && p in s.producers
    ensures var s', pc := ApplyProducer(s, p, spurious), s.producers[p];
            multiset(s'.claimed)[e] + (if p in s'.producers && Seeks(s'.producers[p], e) then 1 else 0)
            + (if TurnsAway(s, Produce(p, spurious), e) then 1 else 0)
            == multiset(s.claimed)[e] + (if Seeks(pc, e) then 1 else 0)
  {
    var s', pc := ApplyProducer(s, p, spurious), s.producers[p];
    Accepts(s, p, spurious);
    if Owner(pc) || pc.Dropping? {
      Settled(s, p, spurious, e);
    } else {
      SeekOutcome(s, p, spurious);
      assert multiset(s.claimed + [pc.e])[e] == multiset(s.claimed)[e] + if pc.e == e then 1 else 0;
      assert s'.claimed == s.claimed ==> s'.producers[p].Dropping? || Seeks(s'.producers[p], pc.e);
    }
  }

  lemma Accepts(s: State, p: nat, spurious: bool)
    requires Shape(s) && p in s.producers
    ensures var s', pc := ApplyProducer(s, p, spurious), s.producers[p];
            s'.claimed == if pc.Cas? && pc.pos == s.enq && !spurious then s.claimed + [pc.e] else s.claimed
  {
  }

  lemma Settled(s: State, p: nat, spurious: bool, e: Entry)
    requires Shape(s) && p in s.producers && (Owner(s.producers[p]) || s.producers[p].Dropping?)
    ensures var s' := ApplyProducer(s, p, spurious); p in s'.producers ==> !Seeks(s'.producers[p], e)
  {
  }

  lemma ProduceLine(s: State, p: nat, spurious: bool, e: Entry)
    requires Shape(s) && p in s.producers
    ensures Count(ApplyProducer(s, p, spurious), e) + (if TurnsAway(s, Produce(p, spurious), e) then 1 else 0) == Count(s, e)
  {
    var s', pc := ApplyProducer(s, p, spurious), s.producers[p];
    Moved(s, p, spurious);
    MovedLine(s, p, spurious, e);
    if p in s'.producers {
      SeekersMove(s.producers, p, s'.producers[p], e);
    } else {
      SeekersMove(s.producers, p, pc, e);
    }
  }

  lemma StepLine(s: State, a: Action, e: Entry)
    requires Shape(s) && Enabled(s, a)
    ensures Count(Apply(s, a), e) + (if TurnsAway(s, a, e) then 1 else 0) == Count(s, e) + (if IsOffer(a, e) then 1 else 0)
  {
    match a
    case Produce(p, spurious) => ProduceLine(s, p, spurious, e);
    case Refuse(p) => SeekersMove(s.producers, p, Dropping, e);
    case Begin(p, line, level) => SeekersMove(s.producers, p, LoadTail(Entry(Fit(line), level)), e);
    case Skip =>
    case Consume =>
  }

  lemma {:induction false} LinesMove(s: State, acts: seq<Action>, s': State, e: Entry)
    requires Inv(s) && Run(s, acts, s')
    ensures Count(s', e) + TurnedAway(s, acts, e) == Count(s, e) + Offered(acts, e)
    decreases |acts|
  {
    if acts != [] {
      StepLine(s, acts[0], e);
      InvStep(s, acts[0]);
      LinesMove(Apply(s, acts[0]), acts[1..], s', e);
    }
  }

  /** With no call in progress every line was accepted as often as it was offered and not turned away: none lost, doubled or made up. */
  lemma LinesConserved(s0: State, acts: seq<Action>, s: State, e: Entry)
    requires Init(s0) && Run(s0, acts, s) && s.producers == map[]
    ensures multiset(s.claimed)[e] + TurnedAway(s0, acts, e) == Offered(acts, e)
  {
    InvInit(s0);
    LinesMove(s0, acts, s, e);
    assert Seekers(s0.producers, e) == {} && Seekers(s.producers, e) == {};
  }
}
