/**
 What OVERWRITE accepts and drops, over every run and every interleaving, sound or not: no line is ever
 turned away, and the counter holds the refused calls, the evictions and the timeouts, each once.
 */
module OverwriteDrops {
  import opened LogRing
  import opened LogProgress
  import opened LogDrops
  import opened LogOverwrite

  /** A push starts to evict exactly when its look at the head finds the ring full, and goes back to the tail with its line. */
  lemma EvictsIffFull(s: OState, p: nat, spurious: bool)
    requires OShape(s) && p in s.core.producers && p !in s.evicting
    ensures var s', pc := OverwriteApply(s, Produce(p, spurious)), s.core.producers[p];
            && (p in s'.evicting <==> RefusedLook(s.core, Produce(p, spurious)))
            && (p in s'.evicting ==> s'.evicting[p] == Swap(s.core.deq) && s'.core == SetProducer(s.core, p, LoadTail(pc.e)))
            && (p in s'.core.producers && s'.core.producers[p].Dropping? ==> pc.Dropping?)
  {
    var pc := s.core.producers[p];
    if pc.LoadTail? || pc.LoadHead? || pc.Cas? { SeekOutcome(s.core, p, spurious); }
  }

  // ----- every line is accepted -----

  lemma LookAgain(s: State, p: nat, e: Entry)
    requires p in s.producers && s.producers[p].LoadHead?
    ensures LogDrops.Count(SetProducer(s, p, LoadTail(s.producers[p].e)), e) == LogDrops.Count(s, e)
  {
    SeekersMove(s.producers, p, LoadTail(s.producers[p].e), e);
  }

  lemma StepAccepts(s: OState, a: Action, e: Entry)
    requires OShape(s) && Enabled(s.core, a)
    ensures LogDrops.Count(OverwriteApply(s, a).core, e) == LogDrops.Count(s.core, e) + if IsOffer(a, e) then 1 else 0
  {
    if a.Produce? && a.p in s.evicting {
    } else if FindsFull(s.core, a) {
      LookAgain(s.core, a.p, e);
    } else {
      StepLine(s.core, a, e);
    }
  }

  lemma {:induction false} RunAccepts(s: OState, acts: seq<Action>, s': OState, e: Entry)
    requires OverwriteRun(s, acts, s')
    ensures LogDrops.Count(s'.core, e) == LogDrops.Count(s.core, e) + Offered(acts, e)
    decreases |acts|
  {
    if acts != [] {
      StepAccepts(s, acts[0], e);
      RunAccepts(OverwriteApply(s, acts[0]), acts[1..], s', e);
    }
  }

  /** From a new ring, with no call in progress: every line has got a ticket as often as it was offered. */
  lemma OverwriteAccepts(s0: State, acts: seq<Action>, s: OState, e: Entry)
    requires Init(s0) && OverwriteRun(OState(s0, map[]), acts, s) && s.core.producers == map[]
    ensures multiset(s.core.claimed)[e] == Offered(acts, e)
  {
    RunAccepts(OState(s0, map[]), acts, s, e);
    assert Seekers(s0.producers, e) == {} && Seekers(s.core.producers, e) == {};
  }

  // ----- what is counted as dropped -----

  /** The next access counts a drop and ends the call. */
  predicate Leaving(pc: Producer) {
    pc.Dropping? || pc.TimedOut?
  }

  ghost function Leavers(ps: map<nat, Producer>): set<nat> {
    set p | p in ps && Leaving(ps[p])
  }

  lemma LeaversMove(ps: map<nat, Producer>, p: nat, pc: Producer)
    ensures |Leavers(ps[p := pc])| == |Leavers(ps - {p})| + if Leaving(pc) then 1 else 0
    ensures |Leavers(ps)| == |Leavers(ps - {p})| + if p in ps && Leaving(ps[p]) then 1 else 0
  {
    var rest := Leavers(ps - {p});
    assert Leavers(ps[p := pc]) == if Leaving(pc) then rest + {p} else rest;
    assert Leavers(ps) == if p in ps && Leaving(ps[p]) then rest + {p} else rest;
  }

  /** Drops counted, and drops about to be counted. */
  ghost function Drops(s: OState): nat {
    s.core.dropped + |Leavers(s.core.producers)| + |Counting(s.evicting)|
  }

  /** A holder gives up its ticket because its slot does not carry it after all spins. */
  ghost predicate GivesUp(s: OState, a: Action) {
    && a.Produce? && a.p !in s.evicting && a.p in s.core.producers && s.core.producers[a.p].Recheck?
    && Shape(s.core) && s.core.slots[At(s.core, s.core.producers[a.p].pos)].seqno != s.core.producers[a.p].pos
  }

  ghost predicate DropsOne(s: OState, a: Action) {
    a.Refuse? || Takes(s, a) != {} || GivesUp(s, a)
  }

  lemma CountingMove(ev: map<nat, Eviction>, p: nat, x: Eviction)
    ensures |Counting(ev[p := x])| == |Counting(ev - {p})| + if x.Count? then 1 else 0
    ensures |Counting(ev)| == |Counting(ev - {p})| + if p in ev && ev[p].Count? then 1 else 0
  {
    var rest := Counting(ev - {p});
    assert Counting(ev[p := x]) == if x.Count? then rest + {p} else rest;
    assert Counting(ev) == if p in ev && ev[p].Count? then rest + {p} else rest;
  }

  lemma EvictionDrops(s: OState, p: nat, spurious: bool)
    requires OShape(s) && p in s.evicting
    ensures Drops(EvictionStep(s, p, spurious)) == Drops(s) + if Takes(s, Produce(p, spurious)) != {} then 1 else 0
  {
    var s' := EvictionStep(s, p, spurious);
    CountingMove(s.evicting, p, if p in s'.evicting then s'.evicting[p] else s.evicting[p]);
  }

  lemma ProducerDrops(s: OState, p: nat, spurious: bool)
    requires OShape(s) && p in s.core.producers && p !in s.evicting && !FindsFull(s.core, Produce(p, spurious))
    ensures Drops(s.(core := ApplyProducer(s.core, p, spurious))) == Drops(s) + if GivesUp(s, Produce(p, spurious)) then 1 else 0
  {
    var c', pc := ApplyProducer(s.core, p, spurious), s.core.producers[p];
    Moved(s.core, p, spurious);
    LeaversMove(s.core.producers, p, if p in c'.producers then c'.producers[p] else pc);
  }

  lemma StepDrops(s: OState, a: Action)
    requires OShape(s) && Enabled(s.core, a)
    ensures Drops(OverwriteApply(s, a)) == Drops(s) + if DropsOne(s, a) then 1 else 0
  {
    match a
    case Produce(p, spurious) =>
      if p in s.evicting {
        EvictionDrops(s, p, spurious);
      } else if FindsFull(s.core, a) {
        LeaversMove(s.core.producers, p, LoadTail(s.core.producers[p].e));
        CountingMove(s.evicting, p, Swap(s.core.deq));
        assert s.evicting - {p} == s.evicting;
      } else {
        ProducerDrops(s, p, spurious);
      }
    case Refuse(p) => LeaversMove(s.core.producers, p, Dropping);
    case Begin(p, line, level) => LeaversMove(s.core.producers, p, LoadTail(Entry(Fit(line), level)));
    case Skip =>
    case Consume =>
  }

  /** Refused calls, evictions and timeouts of a run. */
  ghost function Losses(s: OState, acts: seq<Action>): nat
    decreases |acts|
  {
    if acts == [] || !OShape(s) || !Enabled(s.core, acts[0]) then 0
    else (if DropsOne(s, acts[0]) then 1 else 0) + Losses(OverwriteApply(s, acts[0]), acts[1..])
  }

  /** The drop counter over any run. */
  lemma {:induction false} DropsAreLosses(s: OState, acts: seq<Action>, s': OState)
    requires OverwriteRun(s, acts, s')
    ensures Drops(s') == Drops(s) + Losses(s, acts)
    decreases |acts|
  {
    if acts != [] {
      StepDrops(s, acts[0]);
      DropsAreLosses(OverwriteApply(s, acts[0]), acts[1..], s');
    }
  }
}
