/**
 Runs of the log ring under OVERWRITE that break it, each from every initial ring: three for the
 parts of LogOverwrite.Evictable, one for a ticket holder whose spins run out while its slot is still to be
 freed, one for a pop that looks at such a slot.
 */
module OverwriteRuns {
  import opened LogRing
  import opened LogProgress
  import opened LogOverwrite

  // ----- runs under OVERWRITE -----

  lemma Cons(s: OState, a: Action, acts: seq<Action>, s': OState)
    requires OShape(s) && Enabled(s.core, a) && OverwriteRun(OverwriteApply(s, a), acts, s')
    ensures OverwriteRun(s, [a] + acts, s')
  {
    assert ([a] + acts)[1..] == acts;
  }

  lemma {:induction false} Append(s: OState, acts: seq<Action>, s1: OState, more: seq<Action>, s2: OState)
    requires OverwriteRun(s, acts, s1) && OverwriteRun(s1, more, s2)
    ensures OverwriteRun(s, acts + more, s2)
    decreases |acts|
  {
    if acts == [] {
      assert acts + more == more;
    } else {
      Append(OverwriteApply(s, acts[0]), acts[1..], s1, more, s2);
      assert (acts + more)[1..] == acts[1..] + more;
    }
  }

  ghost predicate Refusing(s: State) {
    exists p :: p in s.producers && s.producers[p].Dropping?
  }

  /** A refusal is counted sooner or later. */
  lemma {:induction false} RefusalShows(s: State, acts: seq<Action>, s': State)
    requires Run(s, acts, s')
    ensures s'.dropped >= s.dropped && (Refusing(s) ==> s'.dropped > s.dropped || Refusing(s'))
    decreases |acts|
  {
    if acts != [] {
      var s1 := Apply(s, acts[0]);
      RefusalShows(s1, acts[1..], s');
      if p :| p in s.producers && s.producers[p].Dropping? {
        assert s1.dropped > s.dropped || (p in s1.producers && s1.producers[p].Dropping?);
      }
    }
  }

  /** Nobody in the middle of an eviction moves. */
  ghost predicate Leaves(acts: seq<Action>, evicting: map<nat, Eviction>) {
    forall a :: a in acts && a.Produce? ==> a.p !in evicting
  }

  /** A run without refusals is the same under every policy, whoever stands still in an eviction. */
  lemma {:induction false} SameUnderOverwrite(s: State, acts: seq<Action>, s': State, evicting: map<nat, Eviction>)
    requires Run(s, acts, s') && s'.dropped == s.dropped && !Refusing(s')
    requires EvictersOk(evicting, s.producers) && Leaves(acts, evicting)
    ensures OverwriteRun(OState(s, evicting), acts, OState(s', evicting))
    decreases |acts|
  {
    if acts != [] {
      var a := acts[0];
      var s1 := Apply(s, a);
      assert a in acts;
      if FindsFull(s, a) {
        assert s1.producers[a.p].Dropping?;
        RefusalShows(s1, acts[1..], s');
        assert false;
      } else {
        RefusalShows(s1, acts[1..], s');
        EvictersStay(s, a, evicting);
        SameUnderOverwrite(s1, acts[1..], s', evicting);
        assert OverwriteApply(OState(s, evicting), a) == OState(s1, evicting);
      }
    }
  }

  lemma EvictersStay(s: State, a: Action, evicting: map<nat, Eviction>)
    requires Shape(s) && Enabled(s, a) && EvictersOk(evicting, s.producers) && (a.Produce? ==> a.p !in evicting)
    ensures EvictersOk(evicting, Apply(s, a).producers)
  {
  }

  // ----- pieces of runs of the ring itself -----

  /** Everything but producer p and the slots. */
  ghost predicate Frame(s: State, s': State, p: nat) {
    && s'.cap == s.cap && s'.deq == s.deq && s'.dropped == s.dropped && s'.consumer == s.consumer && s'.popped == s.popped
    && s'.producers - {p} == s.producers - {p} && s'.attempted == s.attempted
  }

  /** A producer that has its slot writes its line and publishes it. */
  lemma {:induction false} WriteOut(s: State, p: nat) returns (acts: seq<Action>, s': State)
    requires Shape(s) && p in s.producers && (s.producers[p].Copy? || s.producers[p].Seal? || s.producers[p].Publish?)
    requires s.producers[p].Copy? ==> s.producers[p].i <= |s.producers[p].e.text|
    ensures Run(s, acts, s') && AllAre(acts, Produce(p, false))
    ensures Shape(s') && Frame(s, s', p) && p !in s'.producers && s'.enq == s.enq && s'.claimed == s.claimed
    ensures s'.slots[At(s, s.producers[p].pos)].seqno == s.producers[p].pos + 1
    decreases if s.producers[p].Copy? then 2 + |s.producers[p].e.text| - s.producers[p].i else if s.producers[p].Seal? then 1 else 0
  {
    var a := Produce(p, false);
    var s1 := Apply(s, a);
    if s.producers[p].Publish? {
      acts, s' := [], s1;
    } else {
      acts, s' := WriteOut(s1, p);
    }
    RunCons(s, a, acts, s');
    acts := [a] + acts;
  }

  /** With room, a push claims the next ticket. */
  lemma Claims(s: State, p: nat) returns (acts: seq<Action>, s': State)
    requires Shape(s) && p in s.producers && s.producers[p].LoadTail? && Sub64(s.enq, s.deq) < s.cap
    ensures Run(s, acts, s') && AllAre(acts, Produce(p, false)) && Shape(s') && Frame(s, s', p) && s'.slots == s.slots
    ensures s'.enq == s.enq + 1 && s'.claimed == s.claimed + [s.producers[p].e]
    ensures p in s'.producers && s'.producers == s.producers[p := Spin(s.producers[p].e, s.enq, 0)]
  {
    var a := Produce(p, false);
    var s1 := Apply(s, a);
    var s2 := Apply(s1, a);
    s' := Apply(s2, a);
    RunCons(s2, a, [], s');
    acts := [a] + [];
    RunCons(s1, a, acts, s');
    acts := [a] + acts;
    RunCons(s, a, acts, s');
    acts := [a] + acts;
  }

  /** With its slot free, it comes to its copy. */
  lemma Copies(s: State, p: nat) returns (acts: seq<Action>, s': State)
    requires Shape(s) && p in s.producers && s.producers[p].Spin? && s.slots[At(s, s.producers[p].pos)].seqno == s.producers[p].pos
    ensures Run(s, acts, s') && AllAre(acts, Produce(p, false))
    ensures s' == s.(producers := s.producers[p := Copy(s.producers[p].e, s.producers[p].pos, 0)])
  {
    var a := Produce(p, false);
    var s1 := Apply(s, a);
    s' := Apply(s1, a);
    RunCons(s1, a, [], s');
    acts := [a] + [];
    RunCons(s, a, acts, s');
    acts := [a] + acts;
    assert s'.producers == s.producers[p := Copy(s.producers[p].e, s.producers[p].pos, 0)];
  }

  lemma ToCopy(s: State, p: nat) returns (acts: seq<Action>, s': State)
    requires Shape(s) && p in s.producers && s.producers[p].LoadTail?
    requires Sub64(s.enq, s.deq) < s.cap && s.slots[At(s, s.enq)].seqno == s.enq
    ensures Run(s, acts, s') && AllAre(acts, Produce(p, false)) && Shape(s') && Frame(s, s', p)
    ensures s'.enq == s.enq + 1 && s'.claimed == s.claimed + [s.producers[p].e]
    ensures p in s'.producers && s'.producers == s.producers[p := Copy(s.producers[p].e, s.enq, 0)]
  {
    var s1, more;
    acts, s1 := Claims(s, p);
    more, s' := Copies(s1, p);
    RunAppend(s, acts, s1, more, s');
    acts := acts + more;
  }

  /** With room and a free slot, a push runs through. */
  lemma Through(s: State, p: nat) returns (acts: seq<Action>, s': State)
    requires Shape(s) && p in s.producers && s.producers[p].LoadTail?
    requires Sub64(s.enq, s.deq) < s.cap && s.slots[At(s, s.enq)].seqno == s.enq
    ensures Run(s, acts, s') && AllAre(acts, Produce(p, false))
    ensures Shape(s') && Frame(s, s', p) && p !in s'.producers
    ensures s'.enq == s.enq + 1 && s'.claimed == s.claimed + [s.producers[p].e]
    ensures s'.slots[At(s, s.enq)].seqno == s.enq + 1
  {
    var s1, more;
    acts, s1 := ToCopy(s, p);
    more, s' := WriteOut(s1, p);
    RunAppend(s, acts, s1, more, s');
    acts := acts + more;
  }

  /** Spins run out at a slot that is not free. */
  lemma {:induction false} SpinsOut(s: State, p: nat) returns (acts: seq<Action>, s': State)
    requires Shape(s) && p in s.producers && s.producers[p].Spin? && s.slots[At(s, s.producers[p].pos)].seqno != s.producers[p].pos
    ensures Run(s, acts, s') && AllAre(acts, Produce(p, false))
    ensures s' == s.(producers := s.producers[p := TimedOut(s.producers[p].e, s.producers[p].pos)])
    ensures s.producers[p].spins < SPIN_LIMIT ==> |acts| == SPIN_LIMIT - s.producers[p].spins + 1
    decreases if s.producers[p].spins < SPIN_LIMIT then SPIN_LIMIT - s.producers[p].spins else 0
  {
    var a := Produce(p, false);
    var s1 := Apply(s, a);
    if s1.producers[p].Spin? {
      acts, s' := SpinsOut(s1, p);
    } else {
      s' := Apply(s1, a);
      RunCons(s1, a, [], s');
      acts := [a] + [];
    }
    RunCons(s, a, acts, s');
    acts := [a] + acts;
    assert s'.producers == s.producers[p := TimedOut(s.producers[p].e, s.producers[p].pos)];
  }

  /** The last two accesses of a pop, whatever happened since it copied the line. */
  lemma Leave(s: State) returns (acts: seq<Action>, s': State)
    requires Shape(s) && s.consumer.Release?
    ensures Run(s, acts, s') && AllAre(acts, Consume)
    ensures s'.deq == s.consumer.pos + 1 && s'.popped == s.popped + [s.consumer.got] && s'.consumer.Idle?
    ensures s'.cap == s.cap && s'.enq == s.enq && s'.claimed == s.claimed && s'.dropped == s.dropped && s'.producers == s.producers
    ensures s'.attempted == s.attempted && Shape(s') && s'.slots[At(s, s.consumer.pos)].seqno == s.consumer.pos + s.cap
  {
    var s1 := Apply(s, Consume);
    s' := Apply(s1, Consume);
    RunCons(s1, Consume, [], s');
    acts := [Consume] + [];
    RunCons(s, Consume, acts, s');
    acts := [Consume] + acts;
  }

  /** A pop copies what the slot holds. */
  lemma {:induction false} CopyOut(s: State) returns (acts: seq<Action>, s': State)
    requires Shape(s) && s.consumer.Fetch? && |s.consumer.out| <= MSG_MAX
    requires s.consumer.out == s.slots[At(s, s.consumer.pos)].text[..|s.consumer.out|]
    ensures Run(s, acts, s') && AllAre(acts, Consume)
    ensures s' == s.(consumer := Release(s.consumer.pos, Stored(s.slots[At(s, s.consumer.pos)])))
    decreases MSG_MAX - |s.consumer.out|
  {
    var s1 := Apply(s, Consume);
    if s1.consumer.Release? {
      acts, s' := [], s1;
      var slot := s.slots[At(s, s.consumer.pos)];
      assert slot.text[..MSG_MAX] == slot.text;
    } else {
      acts, s' := CopyOut(s1);
    }
    RunCons(s, Consume, acts, s');
    acts := [Consume] + acts;
  }

  /** A pop that finds its slot published takes the line in it. */
  lemma TakeOut(s: State) returns (acts: seq<Action>, s': State)
    requires Shape(s) && s.consumer.ReadSeq? && s.slots[At(s, s.consumer.pos)].seqno == s.consumer.pos + 1
    ensures Run(s, acts, s') && AllAre(acts, Consume)
    ensures s' == s.(consumer := Release(s.consumer.pos, Stored(s.slots[At(s, s.consumer.pos)])))
  {
    var s1 := Apply(s, Consume);
    acts, s' := CopyOut(s1);
    RunCons(s, Consume, acts, s');
    acts := [Consume] + acts;
  }

  /** Pushes of producer p one after the other fill the ring. */
  lemma {:induction false} FillUp(s: State, p: nat) returns (acts: seq<Action>, s': State)
    requires Inv(s) && p !in s.producers
    ensures Run(s, acts, s') && Inv(s') && s'.enq == s'.deq + s'.cap
    ensures s'.producers == s.producers && s'.deq == s.deq && s'.consumer == s.consumer && s'.dropped == s.dropped && s'.cap == s.cap
    decreases s.deq + s.cap - s.enq
  {
    if s.enq == s.deq + s.cap {
      acts, s' := [], s;
    } else {
      var push, s1 := PushNow(s, p);
      var rest, s2 := FillUp(s1, p);
      RunAppend(s, push, s1, rest, s2);
      acts, s' := push + rest, s2;
    }
  }

  /** A push enters. */
  lemma Enters(s: State, p: nat) returns (acts: seq<Action>, s': State)
    requires Inv(s) && p !in s.producers
    ensures Run(s, acts, s') && Inv(s') && s' == s.(producers := s.producers[p := LoadTail(Entry("x", 0))], attempted := s.attempted + 1)
  {
    var b := Begin(p, "x", 0);
    s' := Apply(s, b);
    InvStep(s, b);
    RunCons(s, b, [], s');
    acts := [b] + [];
  }

  /** A pop reads head and tail, and stands before the seq of its slot. */
  lemma Looks(s: State) returns (acts: seq<Action>, s': State)
    requires Inv(s) && s.consumer.Idle? && s.deq < s.enq
    ensures Run(s, acts, s') && Inv(s') && s' == s.(consumer := ReadSeq(s.deq))
  {
    var s1 := Apply(s, Consume);
    InvStep(s, Consume);
    s' := Apply(s1, Consume);
    InvStep(s1, Consume);
    RunCons(s1, Consume, [], s');
    RunCons(s, Consume, [Consume] + [], s');
    acts := [Consume] + ([Consume] + []);
  }

  // ----- evictions -----

  /** A push finds the ring full and takes the head. */
  lemma Half(s: State, p: nat) returns (acts: seq<Action>)
    requires Shape(s) && p in s.producers && s.producers[p].LoadTail? && Sub64(s.enq, s.deq) >= s.cap
    ensures OverwriteRun(OState(s, map[]), acts, OState(s.(deq := s.deq + 1), map[p := Count(s.deq)]))
  {
    var a := Produce(p, false);
    var pc := s.producers[p];
    var s0, s1 := OState(s, map[]), OState(SetProducer(s, p, LoadHead(pc.e, s.enq)), map[]);
    var s2, s3 := OState(s, map[p := Swap(s.deq)]), OState(s.(deq := s.deq + 1), map[p := Count(s.deq)]);
    assert s.producers[p := LoadHead(pc.e, s.enq)][p := pc] == s.producers;
    assert OverwriteApply(s1, a) == s2;
    assert s2.evicting[p := Count(s.deq)] == s3.evicting;
    Cons(s2, a, [], s3);
    acts := [a] + [];
    Cons(s1, a, acts, s3);
    acts := [a] + acts;
    Cons(s0, a, acts, s3);
    acts := [a] + acts;
  }

  /** It counts the drop and frees the slot. */
  lemma OtherHalf(s: State, p: nat, h: nat) returns (acts: seq<Action>)
    requires Shape(s) && p in s.producers && s.producers[p].LoadTail?
    ensures OverwriteRun(OState(s, map[p := Count(h)]), acts, OState(s.(dropped := s.dropped + 1, slots := Freed(s.slots, h, s.cap)), map[]))
  {
    var a := Produce(p, false);
    var s0 := OState(s, map[p := Count(h)]);
    var s1 := OState(s.(dropped := s.dropped + 1), map[p := Free(h)]);
    var s2 := OState(s.(dropped := s.dropped + 1, slots := Freed(s.slots, h, s.cap)), map[]);
    assert s0.evicting[p := Free(h)] == s1.evicting && s1.evicting - {p} == map[];
    FreeIs(s1, p, false);
    Cons(s1, a, [], s2);
    acts := [a] + [];
    Cons(s0, a, acts, s2);
    acts := [a] + acts;
  }

  ghost function Evicted(s: State): State
    requires Shape(s)
  {
    s.(deq := s.deq + 1, dropped := s.dropped + 1, slots := Freed(s.slots, s.deq, s.cap))
  }

  /** A whole eviction from a full ring */
  lemma Whole(s: State, p: nat) returns (acts: seq<Action>)
    requires Shape(s) && s.enq == s.deq + s.cap && s.cap < WORD && p in s.producers && s.producers[p].LoadTail?
    ensures OverwriteRun(OState(s, map[]), acts, OState(Evicted(s), map[]))
  {
    LeavesRoom(s);
    acts := Half(s, p);
    var s1 := s.(deq := s.deq + 1);
    var more := OtherHalf(s1, p, s.deq);
    Append(OState(s, map[]), acts, OState(s1, map[p := Count(s.deq)]), more, OState(Evicted(s), map[]));
    acts := acts + more;
  }

  /** leaves room and a free slot for the next ticket. */
  lemma LeavesRoom(s: State)
    requires Shape(s) && s.enq == s.deq + s.cap && s.cap < WORD
    ensures Sub64(s.enq, s.deq) >= s.cap
    ensures var s' := Evicted(s); Shape(s') && Sub64(s'.enq, s'.deq) < s'.cap && s'.slots[At(s', s'.enq)].seqno == s'.enq
  {
    SameSlot(s.cap, s.deq);
  }

  // ----- the line is being taken -----

  /**
   From every state with a full ring, a pop about to release its line and a push about to start: the
   push can accept a line whose slot then says "free" although nobody holds its ticket, while the
   line the consumer took is both popped and counted as dropped.
   */
  lemma EvictedWhileTaken(s: State, p: nat) returns (acts: seq<Action>, s': State)
    requires Inv(s) && s.enq == s.deq + s.cap && s.consumer.Release? && s.producers.Keys == {p} && s.producers[p].LoadTail?
    ensures OverwriteRun(OState(s, map[]), acts, OState(s', map[])) && Shape(s') && s'.consumer.Idle?
    ensures s'.claimed == s.claimed + [s.producers[p].e] && s'.enq == s.enq + 1 && s'.producers == map[]
    ensures s'.cap == s.cap && s'.attempted == s.attempted && s'.slots[At(s', s.enq)].seqno == s.enq
    ensures s'.deq == s.deq + 1 && s'.popped == s.popped + [s.claimed[s.deq]] && s'.dropped == s.dropped + 1
  {
    var s1 := Evicted(s);
    acts := Whole(s, p);
    LeavesRoom(s);
    var push, s2 := Through(s1, p);
    var pop;
    pop, s' := Leave(s2);
    RunAppend(s1, push, s2, pop, s');
    assert s2.producers == s2.producers - {p} == map[];
    SameUnderOverwrite(s1, push + pop, s', map[]);
    Append(OState(s, map[]), acts, OState(s1, map[]), push + pop, OState(s', map[]));
    acts := acts + (push + pop);
    SameSlot(s.cap, s.deq);
  }

  /** When the head reaches such a slot, a pop finds nothing and changes nothing, though a line was accepted there. */
  lemma LostLineBlocks(s: State)
    requires Shape(s) && s.consumer.Idle? && s.deq < s.enq && s.slots[At(s, s.deq)].seqno != s.deq + 1
    ensures OverwriteRun(OState(s, map[]), [Consume, Consume, Consume], OState(s, map[]))
  {
    var o := OState(s, map[]);
    var s1 := OverwriteApply(o, Consume);
    var s2 := OverwriteApply(s1, Consume);
    assert OverwriteApply(s2, Consume) == o;
    Cons(s2, Consume, [], o);
    Cons(s1, Consume, [Consume], o);
    Cons(o, Consume, [Consume] + [Consume], o);
    assert [Consume] + ([Consume] + [Consume]) == [Consume, Consume, Consume];
    assert [Consume] + [] == [Consume];
  }

  /** A new ring fills up, and a pop reads head and tail. */
  lemma FullAndLooking(s0: State) returns (acts: seq<Action>, s: State)
    requires Init(s0)
    ensures Run(s0, acts, s) && Inv(s) && s.cap == s0.cap && s.deq == 0 && s.enq == s.cap && s.consumer == ReadSeq(0) && s.dropped == 0 && s.producers == map[]
  {
    InvInit(s0);
    var s1, look;
    acts, s1 := FillUp(s0, 0);
    look, s := Looks(s1);
    RunAppend(s0, acts, s1, look, s);
    acts := acts + look;
  }

  /** A full ring, a pop about to release its line, a push about to start, and nothing dropped so far. */
  lemma Reach(s0: State) returns (acts: seq<Action>, s: State)
    requires Init(s0)
    ensures Run(s0, acts, s) && Inv(s) && s.enq == s.deq + s.cap && s.consumer.Release? && s.dropped == 0
    ensures s.producers.Keys == {0} && s.producers[0].LoadTail?
  {
    var s1, take, s2, enter;
    acts, s1 := FullAndLooking(s0);
    assert SlotOk(s1, s1.deq) && Published(s1, s1.deq);
    take, s2 := TakeOut(s1);
    InvRun(s1, take, s2);
    RunAppend(s0, acts, s1, take, s2);
    enter, s := Enters(s2, 0);
    RunAppend(s0, acts + take, s2, enter, s);
    acts := acts + take + enter;
  }

  /**
   For every capacity OVERWRITE has a run that loses a line: accepted under ticket t, held by nobody, in a slot
   that says "free", while another line is both popped and counted as dropped.
   */
  lemma OverwriteLosesLine(s0: State) returns (acts: seq<Action>, s: State, t: nat)
    requires Init(s0)
    ensures OverwriteRun(OState(s0, map[]), acts, OState(s, map[])) && Shape(s) && s.producers == map[] && s.consumer.Idle?
    ensures s.deq <= t < s.enq == |s.claimed| && s.slots[At(s, t)].seqno == t
    ensures s.attempted < |s.popped| + (s.enq - s.deq) + s.dropped
  {
    var first, s1 := Reach(s0);
    assert !Refusing(s1);
    SameUnderOverwrite(s0, first, s1, map[]);
    var more, s2 := EvictedWhileTaken(s1, 0);
    Append(OState(s0, map[]), first, OState(s1, map[]), more, OState(s2, map[]));
    acts, s, t := first + more, s2, s1.enq;
    assert PreClaims(s1.producers) == {0};
  }

  // ----- no line to evict -----

  /** From every new ring: a push with a tail out of date evicts from an empty ring, and the head passes the tail. */
  lemma EvictsFromEmptyRing(s0: State) returns (acts: seq<Action>, s: OState)
    requires Init(s0)
    ensures OverwriteRun(OState(s0, map[]), acts, s) && s.core.consumer.Idle? && s.core.deq > s.core.enq
  {
    var first, c := OutOfDate(s0);
    assert !Refusing(c);
    SameUnderOverwrite(s0, first, c, map[]);
    var a := Produce(0, false);
    assert (0 - 1) % WORD == WORD - 1;
    var s1 := OState(c, map[]);
    var s2 := OverwriteApply(s1, a);
    s := OverwriteApply(s2, a);
    Cons(s2, a, [], s);
    Cons(s1, a, [a] + [], s);
    Append(OState(s0, map[]), first, s1, [a] + ([a] + []), s);
    acts := first + ([a] + ([a] + []));
  }

  // ----- a line not yet published -----

  /** Producer 0 of a new ring claims ticket 0 and starts to copy its line; then the ring fills up, and producer 1 enters. */
  lemma ClaimFirst(s0: State) returns (acts: seq<Action>, s: State)
    requires Init(s0)
    ensures Run(s0, acts, s) && Inv(s) && s.deq == 0 && s.enq == s.cap && s.dropped == 0 && s.producers.Keys == {0, 1}
    ensures s.producers[0].Copy? && s.producers[0].pos == 0 && s.producers[1].LoadTail?
  {
    InvInit(s0);
    var s1, claim, s2, fill, s3, enter;
    acts, s1 := Enters(s0, 0);
    FreshTest(s1);
    claim, s2 := ToCopy(s1, 0);
    InvRun(s1, claim, s2);
    RunAppend(s0, acts, s1, claim, s2);
    fill, s3 := FillUp(s2, 1);
    RunAppend(s0, acts + claim, s2, fill, s3);
    enter, s := Enters(s3, 1);
    RunAppend(s0, acts + claim + fill, s3, enter, s);
    acts := acts + claim + fill + enter;
  }

  /** From every new ring: a push evicts a line that is still being written, and both write the same slot at once. */
  lemma EvictsUnpublished(s0: State) returns (acts: seq<Action>, s: State, i: nat)
    requires Init(s0)
    ensures OverwriteRun(OState(s0, map[]), acts, OState(s, map[])) && s.cap > 0 && WritesAt(s, 0, i) && WritesAt(s, 1, i)
  {
    var s1;
    acts, s1 := ClaimFirst(s0);
    assert !Refusing(s1);
    SameUnderOverwrite(s0, acts, s1, map[]);
    var evict := Whole(s1, 1);
    LeavesRoom(s1);
    var s2 := Evicted(s1);
    Append(OState(s0, map[]), acts, OState(s1, map[]), evict, OState(s2, map[]));
    var rest;
    rest, s := ToCopy(s2, 1);
    assert !Refusing(s);
    SameUnderOverwrite(s2, rest, s, map[]);
    Append(OState(s0, map[]), acts + evict, OState(s2, map[]), rest, OState(s, map[]));
    acts := acts + evict + rest;
    SameSlot(s.cap, 0);
    i := At(s, 0);
  }

  // ----- a slot not yet freed -----

  /** A new ring fills up, and two pushes enter. */
  lemma FullAndTwo(s0: State) returns (acts: seq<Action>, s: State)
    requires Init(s0)
    ensures Run(s0, acts, s) && Inv(s) && s.cap == s0.cap && s.deq == 0 && s.enq == s.cap && s.dropped == 0 && s.consumer.Idle?
    ensures s.producers.Keys == {0, 1} && s.producers[0].LoadTail? && s.producers[1].LoadTail?
  {
    InvInit(s0);
    var s1, one, s2, two;
    acts, s1 := FillUp(s0, 0);
    one, s2 := Enters(s1, 0);
    RunAppend(s0, acts, s1, one, s2);
    two, s := Enters(s2, 1);
    RunAppend(s0, acts + one, s2, two, s);
    acts := acts + one + two;
  }

  /** Producer 1 claims the ticket whose slot producer 0 has not freed yet, and gives up. */
  lemma GivesUp(s: State) returns (acts: seq<Action>, s': State)
    requires Shape(s) && s.cap >= 2 && s.producers.Keys == {0, 1} && s.producers[0].LoadTail? && s.producers[1].LoadTail?
    requires s.deq == 1 && s.enq == s.cap < WORD && s.slots[At(s, 0)].seqno == 1
    ensures OverwriteRun(OState(s, map[0 := Count(0)]), acts, OState(s', map[0 := Count(0)]))
    ensures s'.producers.Keys == {0} && s'.producers[0] == s.producers[0] && s'.dropped == s.dropped + 1 && s'.enq == s.enq + 1
    ensures s'.cap == s.cap && s'.deq == s.deq && s'.slots == s.slots && s'.consumer == s.consumer && |s'.claimed| == |s.claimed| + 1
  {
    SameSlot(s.cap, 0);
    var ev := map[0 := Count(0)];
    var s1, spin, s2;
    acts, s1 := Claims(s, 1);
    spin, s2 := SpinsOut(s1, 1);
    RunAppend(s, acts, s1, spin, s2);
    acts := acts + spin;
    assert !Refusing(s2) && Leaves(acts, ev);
    SameUnderOverwrite(s, acts, s2, ev);
    var a := Produce(1, false);
    s' := Apply(s2, a);
    assert OverwriteApply(OState(s2, ev), a) == OState(s', ev);
    Cons(OState(s2, ev), a, [], OState(s', ev));
    Append(OState(s, ev), acts, OState(s2, ev), [a] + [], OState(s', ev));
    acts := acts + ([a] + []);
  }

  /** From every new ring: the ring is full, its oldest line may be evicted, and producer 0 has taken the head but not freed the slot. */
  lemma HalfEvicted(s0: State) returns (acts: seq<Action>, s: State)
    requires Init(s0)
    ensures OverwriteRun(OState(s0, map[]), acts, OState(s, map[0 := Count(0)])) && Shape(s) && s.cap == s0.cap && s.consumer.Idle?
    ensures s.producers.Keys == {0, 1} && s.producers[0].LoadTail? && s.producers[1].LoadTail?
    ensures s.deq == 1 && s.enq == s.cap == |s.claimed| < WORD && s.slots[At(s, 0)].seqno == 1
    ensures Evictable(s.(deq := 0))
  {
    var c;
    acts, c := FullAndTwo(s0);
    assert !Refusing(c) && !Held(c.producers, 0) && Evictable(c) && SlotOk(c, 0);
    SameUnderOverwrite(s0, acts, c, map[]);
    FreshTest(c);
    var evict := Half(c, 0);
    s := c.(deq := 1);
    Append(OState(s0, map[]), acts, OState(c, map[]), evict, OState(s, map[0 := Count(0)]));
    acts := acts + evict;
  }

  /**
   From every new ring: an eviction that meets every condition on its line, but stops before it frees the slot, lets the
   holder of the next ticket run out of spins. Its ticket t is claimed, held by nobody and never published.
   */
  lemma SpinsRunOut(s0: State) returns (acts: seq<Action>, s: State, t: nat)
    requires Init(s0) && s0.cap >= 2
    ensures OverwriteRun(OState(s0, map[]), acts, OState(s, map[])) && Shape(s) && s.consumer.Idle?
    ensures s.deq <= t < s.enq == |s.claimed| && !Held(s.producers, t) && s.slots[At(s, t)].seqno == t
  {
    var ev := map[0 := Count(0)];
    var c, d, rest;
    acts, c := HalfEvicted(s0);
    rest, d := GivesUp(c);
    Append(OState(s0, map[]), acts, OState(c, ev), rest, OState(d, ev));
    var free := OtherHalf(d, 0, 0);
    s, t := d.(dropped := d.dropped + 1, slots := Freed(d.slots, 0, d.cap)), d.cap;
    Append(OState(s0, map[]), acts + rest, OState(d, ev), free, OState(s, map[]));
    acts := acts + rest + free;
    SameSlot(s.cap, 0);
  }

  /** With producer 0 half through its eviction, a pop that looks at the slot takes the evicted line. */
  lemma TakesEvicted(s: State) returns (acts: seq<Action>, s': State)
    requires Shape(s) && s.producers.Keys == {0} && s.producers[0].LoadTail? && s.consumer == ReadSeq(0) && s.slots[At(s, 0)].seqno == 1
    ensures OverwriteRun(OState(s, map[0 := Count(0)]), acts, OState(s', map[0 := Count(0)])) && Shape(s')
    ensures s'.deq == 1 && s'.popped == s.popped + [Stored(s.slots[At(s, 0)])] && s'.consumer.Idle? && s'.slots[At(s, 0)].seqno == s.cap
    ensures s'.cap == s.cap && s'.enq == s.enq && s'.claimed == s.claimed && s'.dropped == s.dropped && s'.producers == s.producers
    ensures s'.attempted == s.attempted
  {
    var ev := map[0 := Count(0)];
    var s1, leave;
    acts, s1 := TakeOut(s);
    leave, s' := Leave(s1);
    RunAppend(s, acts, s1, leave, s');
    acts := acts + leave;
    assert !Refusing(s') && Leaves(acts, ev);
    SameUnderOverwrite(s, acts, s', ev);
  }

  /** A full ring, a pop before the seq of its slot, and a push about to start; the oldest line may be evicted. */
  lemma LookingAndOne(s0: State) returns (acts: seq<Action>, s: State)
    requires Init(s0)
    ensures OverwriteRun(OState(s0, map[]), acts, OState(s, map[])) && Shape(s) && s.cap == s0.cap && s.enq == s.cap == |s.claimed| && s.cap < WORD
    ensures s.consumer == ReadSeq(0) && s.dropped == 0 && s.deq == 0 && s.popped == [] && s.producers.Keys == {0} && s.producers[0].LoadTail?
    ensures Evictable(s) && s.slots[At(s, 0)].seqno == 1 && Stored(s.slots[At(s, 0)]) == s.claimed[0]
    ensures s.attempted == s.enq + 1 && Sub64(s.enq, s.deq) >= s.cap
  {
    var c, enter;
    acts, c := FullAndLooking(s0);
    enter, s := Enters(c, 0);
    RunAppend(s0, acts, c, enter, s);
    acts := acts + enter;
    assert !Refusing(s) && !Held(s.producers, 0) && SlotOk(s, 0) && PreClaims(s.producers) == {0};
    SameUnderOverwrite(s0, acts, s, map[]);
    FreshTest(s);
  }

  /**
   From every new ring: a pop has read the head; an eviction that meets every condition on its line takes the
   head, and before the slot is freed the pop finds its line there. The line is popped and counted as dropped.
   */
  lemma PopsEvicted(s0: State) returns (acts: seq<Action>, s: State)
    requires Init(s0) && s0.cap >= 2
    ensures OverwriteRun(OState(s0, map[]), acts, OState(s, map[])) && s.producers == map[] && s.consumer.Idle?
    ensures s.deq == 1 && |s.claimed| > 0 && s.popped == [s.claimed[0]] && s.dropped == 1
    ensures s.attempted < |s.popped| + (s.enq - s.deq) + s.dropped
  {
    var c, evict, d, rest;
    acts, c := LookingAndOne(s0);
    evict := Half(c, 0);
    var ev, c1 := map[0 := Count(0)], c.(deq := 1);
    Append(OState(s0, map[]), acts, OState(c, map[]), evict, OState(c1, ev));
    rest, d := TakesEvicted(c1);
    Append(OState(s0, map[]), acts + evict, OState(c1, ev), rest, OState(d, ev));
    acts := acts + evict + rest;
    var free := OtherHalf(d, 0, 0);
    var d1 := d.(dropped := d.dropped + 1, slots := Freed(d.slots, 0, d.cap));
    Append(OState(s0, map[]), acts, OState(d, ev), free, OState(d1, map[]));
    acts := acts + free;
    var push;
    push, s := EndsWithPush(d1);
    Append(OState(s0, map[]), acts, OState(d1, map[]), push, OState(s, map[]));
    acts := acts + push;
  }

  lemma EndsWithPush(s: State) returns (acts: seq<Action>, s': State)
    requires Shape(s) && s.producers.Keys == {0} && s.producers[0].LoadTail?
    requires s.deq == 1 && s.enq == s.cap < WORD && s.slots[At(s, 0)].seqno == s.cap
    ensures OverwriteRun(OState(s, map[]), acts, OState(s', map[])) && s'.producers == map[] && s'.consumer == s.consumer
    ensures s'.deq == 1 && s'.enq == s.enq + 1 && s.claimed <= s'.claimed && s'.popped == s.popped && s'.dropped == s.dropped
    ensures s'.attempted == s.attempted
  {
    SameSlot(s.cap, 0);
    acts, s' := Through(s, 0);
    assert s'.producers == s'.producers - {0} == map[];
    SameUnderOverwrite(s, acts, s', map[]);
  }
}
