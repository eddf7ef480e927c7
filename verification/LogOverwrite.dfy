/**
 The log ring under OVERWRITE with overlapping calls, one atomic access at a time: exactly which
 steps keep the ring sound, and what then holds in every run.

 A producer that finds the ring full takes the head by compare-exchange, counts a drop and only
 then frees the slot. In between the head has moved on and the slot has not.
 */
module LogOverwrite {
  import opened LogRing

  /** How far a producer is with an eviction: about to swap the head, to count, or to free the slot. */
  datatype Eviction = Swap(head: nat) | Count(head: nat) | Free(head: nat)

  /** A producer in the middle of an eviction stands at its next look at the tail. */
  datatype OState = OState(core: State, evicting: map<nat, Eviction>)

  predicate OShape(s: OState) {
    Shape(s.core) && EvictersOk(s.evicting, s.core.producers)
  }

  predicate EvictersOk(evicting: map<nat, Eviction>, ps: map<nat, Producer>) {
    forall p :: p in evicting ==> p in ps && ps[p].LoadTail?
  }

  /** The full test of a push. */
  predicate FindsFull(s: State, a: Action) {
    a.Produce? && a.p in s.producers && s.producers[a.p].LoadHead? && Sub64(s.producers[a.p].pos, s.deq) >= s.cap
  }

  /** The next access of an eviction; the weak compare-exchange may fail at will. */
  function EvictionStep(s: OState, p: nat, spurious: bool): OState
    requires OShape(s) && p in s.evicting
  {
    match s.evicting[p]
    case Swap(head) =>
      if s.core.deq == head && !spurious then OState(s.core.(deq := head + 1), s.evicting[p := Count(head)])
      else s.(evicting := s.evicting - {p})
    case Count(head) => OState(s.core.(dropped := s.core.dropped + 1), s.evicting[p := Free(head)])
    case Free(head) =>
      OState(SetSlot(s.core, head, s.core.slots[At(s.core, head)].(seqno := head + s.core.cap)), s.evicting - {p})
  }

  /** One access under OVERWRITE; it differs from the other policies where the ring is found full. */
  function OverwriteApply(s: OState, a: Action): OState
    requires OShape(s) && Enabled(s.core, a)
  {
    if a.Produce? && a.p in s.evicting then EvictionStep(s, a.p, a.spurious)
    else if FindsFull(s.core, a) then
      OState(SetProducer(s.core, a.p, LoadTail(s.core.producers[a.p].e)), s.evicting[a.p := Swap(s.core.deq)])
    else s.(core := Apply(s.core, a))
  }

  ghost predicate OverwriteRun(s: OState, acts: seq<Action>, s': OState)
    decreases |acts|
  {
    if acts == [] then s' == s
    else OShape(s) && Enabled(s.core, acts[0]) && OverwriteRun(OverwriteApply(s, acts[0]), acts[1..], s')
  }

  // ----- what OVERWRITE keeps -----

  /** The lines of the first n tickets that were not evicted, in ticket order. */
  ghost function Survivors(claimed: seq<Entry>, n: nat, evicted: set<nat>): seq<Entry>
    requires n <= |claimed|
  {
    if n == 0 then [] else Survivors(claimed, n - 1, evicted) + if n - 1 in evicted then [] else [claimed[n - 1]]
  }

  /** A pop that has read the head, which was evicted since. */
  predicate Overtaken(s: State) {
    (s.consumer.ReadTail? || s.consumer.ReadSeq?) && s.consumer.pos < s.deq
  }

  /** The evicter p has taken its head and not yet freed the slot. */
  predicate Frees(evicting: map<nat, Eviction>, p: nat) {
    p in evicting && !evicting[p].Swap?
  }

  ghost predicate Freeing(evicting: map<nat, Eviction>, h: nat) {
    exists p :: Frees(evicting, p) && evicting[p].head == h
  }

  /** Ticket t waits for the slot of the evicted ticket a lap before. */
  ghost predicate Waiting(evicting: map<nat, Eviction>, cap: nat, t: nat) {
    t >= cap && Freeing(evicting, t - cap)
  }

  ghost function Counting(evicting: map<nat, Eviction>): set<nat> {
    set p | p in evicting && evicting[p].Count?
  }

  /** Ticket t is held by a producer that has not found its slot free yet. */
  ghost predicate HeldEarly(ps: map<nat, Producer>, t: nat) {
    exists q :: q in ps && (ps[q].Spin? || ps[q].Recheck?) && ps[q].pos == t
  }

  /** The slot of an evicted head waits for the ticket a lap on, which nobody has got further with than spinning. */
  ghost predicate FreesOk(evicting: map<nat, Eviction>, ps: map<nat, Producer>, cap: nat, deq: nat, enq: nat) {
    && (forall p :: Frees(evicting, p) ==>
          var h := evicting[p].head; h < deq <= h + cap && (h + cap >= enq || HeldEarly(ps, h + cap)))
    && (forall p, q :: Frees(evicting, p) && Frees(evicting, q) && evicting[p].head == evicting[q].head ==> p == q)
  }

  /** The slots, but for those not yet freed. */
  ghost predicate SlotsMatch(slots: seq<Slot>, vs: seq<Slot>, evicting: map<nat, Eviction>, cap: nat) {
    && 0 < cap == |slots| == |vs|
    && (forall p :: Frees(evicting, p) ==> var h := evicting[p].head; SlotFreed(slots[Lap(cap, h)], vs[Lap(cap, h)], h, cap))
    && (forall i :: 0 <= i < cap ==> slots[i] == vs[i] || exists p :: Frees(evicting, p) && Lap(cap, evicting[p].head) == i)
  }

  ghost predicate SlotFreed(slot: Slot, v: Slot, h: nat, cap: nat) {
    v.seqno == h + cap && slot == v.(seqno := h + 1)
  }

  /** The ring as the other policies would have it: evicted lines popped at once, an overtaken pop not begun. */
  ghost predicate Mirrors(s: State, v: State) {
    && s == v.(slots := s.slots, popped := s.popped, dropped := s.dropped, consumer := s.consumer)
    && v.consumer == if Overtaken(s) then Idle else s.consumer
  }

  ghost predicate HistoryOk(s: State, v: State, evicted: set<nat>, counting: nat) {
    && v.dropped + |evicted| == s.dropped + counting
    && s.deq <= |s.claimed| && (forall t :: t in evicted ==> t < s.deq) && s.popped == Survivors(s.claimed, s.deq, evicted)
  }

  /** The invariant of LogRing holds of that ring, and every ticket before the head was popped, in order, or evicted and counted. */
  ghost predicate Sound(s: OState, v: State, evicted: set<nat>) {
    Inv(v) && v.cap >= 2 && Matches(s, v, evicted)
  }

  ghost predicate Matches(s: OState, v: State, evicted: set<nat>) {
    && Mirrors(s.core, v)
    && EvictersOk(s.evicting, v.producers) && FreesOk(s.evicting, v.producers, v.cap, v.deq, v.enq)
    && SlotsMatch(s.core.slots, v.slots, s.evicting, v.cap)
    && HistoryOk(s.core, v, evicted, |Counting(s.evicting)|)
  }

  ghost predicate SoundAtAll(s: OState) {
    exists v, evicted :: Sound(s, v, evicted)
  }

  /** Sound, with exactly these tickets evicted. */
  ghost predicate SoundWith(s: OState, evicted: set<nat>) {
    exists v :: Sound(s, v, evicted)
  }

  /** The ticket that a step takes from the head by swapping it. */
  ghost function Takes(s: OState, a: Action): set<nat> {
    if a.Produce? && a.p in s.evicting && s.evicting[a.p] == Swap(s.core.deq) && !a.spurious then {s.core.deq} else {}
  }

  /** The tickets that the swaps of a run take. */
  ghost function Swapped(s: OState, acts: seq<Action>): set<nat>
    decreases |acts|
  {
    if acts == [] || !OShape(s) || !Enabled(s.core, acts[0]) then {}
    else Takes(s, acts[0]) + Swapped(OverwriteApply(s, acts[0]), acts[1..])
  }

  // ----- which steps break it -----

  /** The oldest line is there, published, and not being taken by the consumer. */
  ghost predicate Evictable(s: State) {
    s.deq < s.enq && !Held(s.producers, s.deq) && !s.consumer.Fetch? && !s.consumer.Release? && !s.consumer.Advance?
  }

  /** The head is swapped although its line must not be evicted. */
  ghost predicate BadSwap(s: OState, a: Action) {
    a.Produce? && a.p in s.evicting && s.evicting[a.p] == Swap(s.core.deq) && !a.spurious && !Evictable(s.core)
  }

  /** A ticket holder has used up its spins while its slot was still to be freed. */
  ghost predicate BadRecheck(s: OState, a: Action) {
    && a.Produce? && a.p !in s.evicting && a.p in s.core.producers && s.core.producers[a.p].Recheck?
    && Waiting(s.evicting, s.core.cap, s.core.producers[a.p].pos)
  }

  /** A pop looks at the slot of an evicted line that is still to be freed. */
  ghost predicate BadLook(s: OState, a: Action) {
    a.Consume? && s.core.consumer.ReadSeq? && Freeing(s.evicting, s.core.consumer.pos)
  }

  ghost predicate Bad(s: OState, a: Action) {
    BadSwap(s, a) || BadRecheck(s, a) || BadLook(s, a)
  }

  // ----- slots to be freed -----

  lemma SameSlot(cap: nat, t: nat)
    requires cap > 0
    ensures Lap(cap, t + cap) == Lap(cap, t)
  {
  }

  /** Within a window, a slot belongs to one ticket. */
  lemma OneTicket(cap: nat, deq: nat, t: nat, u: nat)
    requires cap > 0 && deq <= t < deq + cap && deq <= u < deq + cap && Lap(cap, t) == Lap(cap, u)
    ensures t == u
  {
    if t < u { LapInjective(cap, t, u); }
    if u < t { LapInjective(cap, u, t); }
  }

  /** The slot of a ticket of the window differs only while the ticket a lap before is to be freed. */
  lemma Unfreed(s: OState, v: State, t: nat)
    requires SlotsMatch(s.core.slots, v.slots, s.evicting, v.cap) && FreesOk(s.evicting, v.producers, v.cap, v.deq, v.enq)
    requires v.deq <= t < v.deq + v.cap && !Waiting(s.evicting, v.cap, t)
    ensures s.core.slots[Lap(v.cap, t)] == v.slots[Lap(v.cap, t)]
  {
    var i := Lap(v.cap, t);
    if s.core.slots[i] != v.slots[i] {
      var p :| Frees(s.evicting, p) && Lap(v.cap, s.evicting[p].head) == i;
      var h := s.evicting[p].head;
      SameSlot(v.cap, h);
      OneTicket(v.cap, v.deq, h + v.cap, t);
    }
  }

  /** A ticket that is published, or whose holder has found its slot, is not waiting for its slot. */
  lemma NotWaiting(s: OState, v: State, t: nat)
    requires FreesOk(s.evicting, v.producers, v.cap, v.deq, v.enq) && t < v.enq && !HeldEarly(v.producers, t)
    ensures !Waiting(s.evicting, v.cap, t)
  {
  }

  /** Writing the same to both slots of a ticket that is not waiting. */
  lemma MatchedWrite(slots: seq<Slot>, vs: seq<Slot>, evicting: map<nat, Eviction>, cap: nat, i: nat, slot: Slot)
    requires SlotsMatch(slots, vs, evicting, cap) && i < cap && forall p :: Frees(evicting, p) ==> Lap(cap, evicting[p].head) != i
    ensures SlotsMatch(slots[i := slot], vs[i := slot], evicting, cap)
  {
  }

  lemma FreesElsewhere(s: OState, v: State, t: nat)
    requires FreesOk(s.evicting, v.producers, v.cap, v.deq, v.enq) && v.cap > 0
    requires v.deq <= t < v.deq + v.cap && !Waiting(s.evicting, v.cap, t)
    ensures forall p :: Frees(s.evicting, p) ==> Lap(v.cap, s.evicting[p].head) != Lap(v.cap, t)
  {
    forall p | Frees(s.evicting, p) ensures Lap(v.cap, s.evicting[p].head) != Lap(v.cap, t) {
      var h := s.evicting[p].head;
      SameSlot(v.cap, h);
      if Lap(v.cap, h) == Lap(v.cap, t) { OneTicket(v.cap, v.deq, h + v.cap, t); }
    }
  }

  // ----- histories -----

  lemma {:induction false} SurvivorsPrefix(claimed: seq<Entry>, more: seq<Entry>, n: nat, evicted: set<nat>, evicted': set<nat>)
    requires n <= |claimed| && evicted <= evicted' && forall t :: t in evicted' && t !in evicted ==> t >= n
    ensures Survivors(claimed + more, n, evicted') == Survivors(claimed, n, evicted)
  {
    if n > 0 {
      SurvivorsPrefix(claimed, more, n - 1, evicted, evicted');
      assert n - 1 in evicted' <==> n - 1 in evicted;
    }
  }

  ghost function Below(evicted: set<nat>, n: nat): set<nat> {
    set t | t in evicted && t < n
  }

  lemma {:induction false} SurvivorsCount(claimed: seq<Entry>, n: nat, evicted: set<nat>)
    requires n <= |claimed|
    ensures |Survivors(claimed, n, evicted)| + |Below(evicted, n)| == n
  {
    if n == 0 {
      assert Below(evicted, n) == {};
    } else {
      SurvivorsCount(claimed, n - 1, evicted);
      var b := Below(evicted, n - 1);
      if n - 1 in evicted {
        assert Below(evicted, n) == b + {n - 1};
      } else {
        assert Below(evicted, n) == b;
      }
    }
  }

  /** The history grows with the claims and drops of a step that moves neither head nor popped lines. */
  lemma HistoryGrows(s: State, v: State, s': State, v': State, evicted: set<nat>, counting: nat)
    requires HistoryOk(s, v, evicted, counting)
    requires s'.deq == s.deq && s'.popped == s.popped && s.claimed <= s'.claimed && s'.dropped - s.dropped == v'.dropped - v.dropped
    ensures HistoryOk(s', v', evicted, counting)
  {
    var more := s'.claimed[|s.claimed|..];
    assert s'.claimed == s.claimed + more;
    SurvivorsPrefix(s.claimed, more, s.deq, evicted, evicted);
  }

  // ----- producers -----

  /** No claim on a slot to be freed gets lost. */
  lemma FreesMove(evicting: map<nat, Eviction>, ps: map<nat, Producer>, ps': map<nat, Producer>, cap: nat, deq: nat, enq: nat, enq': nat)
    requires FreesOk(evicting, ps, cap, deq, enq)
    requires forall t: nat :: HeldEarly(ps, t) && Waiting(evicting, cap, t) ==> HeldEarly(ps', t)
    requires enq' == enq || (enq' == enq + 1 && HeldEarly(ps', enq))
    ensures FreesOk(evicting, ps', cap, deq, enq')
  {
    forall p | Frees(evicting, p)
      ensures var h := evicting[p].head; h < deq <= h + cap && (h + cap >= enq' || HeldEarly(ps', h + cap))
    {
      assert Freeing(evicting, evicting[p].head + cap - cap);
    }
  }

  lemma HeldEarlyMove(ps: map<nat, Producer>, p: nat, pc: Producer, t: nat)
    requires HeldEarly(ps, t)
    requires p in ps && (ps[p].Spin? || ps[p].Recheck?) && ps[p].pos == t ==> (pc.Spin? || pc.Recheck?) && pc.pos == t
    ensures HeldEarly(ps[p := pc], t)
  {
    var q :| q in ps && (ps[q].Spin? || ps[q].Recheck?) && ps[q].pos == t;
    assert q in ps[p := pc] && (q != p ==> ps[p := pc][q] == ps[q]);
    if q == p { assert ps[p := pc][p] == pc; }
  }

  lemma HeldEarlyWithout(ps: map<nat, Producer>, p: nat, t: nat)
    requires HeldEarly(ps, t) && (p in ps ==> !ps[p].Spin? && !ps[p].Recheck?)
    ensures HeldEarly(ps - {p}, t)
  {
    var q :| q in ps && (ps[q].Spin? || ps[q].Recheck?) && ps[q].pos == t;
    assert q in ps - {p} && (ps - {p})[q] == ps[q];
  }

  /** A call enters, or does nothing. */
  lemma EnterKeeps(s: OState, v: State, evicted: set<nat>, a: Action)
    requires Sound(s, v, evicted) && Enabled(s.core, a) && (a.Begin? || a.Refuse? || a.Skip?)
    ensures Shape(v) && Sound(s.(core := Apply(s.core, a)), Apply(v, a), evicted)
  {
    InvStep(v, a);
    var s', v' := Apply(s.core, a), Apply(v, a);
    HistoryGrows(s.core, v, s', v', evicted, |Counting(s.evicting)|);
    if !a.Skip? {
      var pc := v'.producers[a.p];
      forall t | HeldEarly(v.producers, t) ensures HeldEarly(v'.producers, t) { HeldEarlyMove(v.producers, a.p, pc, t); }
    }
    FreesMove(s.evicting, v.producers, v'.producers, v.cap, v.deq, v.enq, v'.enq);
  }

  /** The accesses of a producer before its claim, with the ring not found full. */
  lemma SeekKeeps(s: OState, v: State, evicted: set<nat>, p: nat, spurious: bool)
    requires Sound(s, v, evicted) && p in v.producers && p !in s.evicting && PreClaim(v.producers[p])
    requires !FindsFull(s.core, Produce(p, spurious))
    ensures Shape(s.core) && Sound(s.(core := ApplyProducer(s.core, p, spurious)), ApplyProducer(v, p, spurious), evicted)
  {
    InvStep(v, Produce(p, spurious));
    SeekMirrors(s.core, v, p, spurious);
    var s', v' := ApplyProducer(s.core, p, spurious), ApplyProducer(v, p, spurious);
    HistoryGrows(s.core, v, s', v', evicted, |Counting(s.evicting)|);
    SeekHolds(v, p, spurious);
    FreesMove(s.evicting, v.producers, v'.producers, v.cap, v.deq, v.enq, v'.enq);
  }

  lemma SeekMirrors(s: State, v: State, p: nat, spurious: bool)
    requires Mirrors(s, v) && Shape(s) && Shape(v) && p in v.producers && PreClaim(v.producers[p])
    ensures var s', v' := ApplyProducer(s, p, spurious), ApplyProducer(v, p, spurious);
            && Mirrors(s', v') && s'.slots == s.slots && v'.slots == v.slots && v'.cap == v.cap && v'.deq == v.deq
            && s'.popped == s.popped && s.claimed <= s'.claimed && s'.dropped - s.dropped == v'.dropped - v.dropped
            && (forall q :: q != p ==> (q in v'.producers <==> q in v.producers) && (q in v.producers ==> v'.producers[q] == v.producers[q]))
  {
  }

  lemma SeekHolds(v: State, p: nat, spurious: bool)
    requires Shape(v) && p in v.producers && PreClaim(v.producers[p])
    ensures var v' := ApplyProducer(v, p, spurious);
            && (forall t :: HeldEarly(v.producers, t) ==> HeldEarly(v'.producers, t))
            && (v'.enq == v.enq || (v'.enq == v.enq + 1 && HeldEarly(v'.producers, v.enq)))
  {
    var v' := ApplyProducer(v, p, spurious);
    forall t | HeldEarly(v.producers, t) ensures HeldEarly(v'.producers, t) {
      if p in v'.producers { HeldEarlyMove(v.producers, p, v'.producers[p], t); } else { HeldEarlyWithout(v.producers, p, t); }
    }
    if v'.enq != v.enq { assert v'.producers[p].Spin? && v'.producers[p].pos == v.enq; }
  }

  /** A producer moves on without touching the slots. */
  lemma StepsOn(s: OState, v: State, evicted: set<nat>, p: nat, pc: Producer)
    requires Sound(s, v, evicted) && p in v.producers && p !in s.evicting && Inv(SetProducer(v, p, pc))
    requires forall t :: HeldEarly(v.producers, t) && Waiting(s.evicting, v.cap, t) ==> HeldEarly(v.producers[p := pc], t)
    ensures Sound(s.(core := SetProducer(s.core, p, pc)), SetProducer(v, p, pc), evicted)
  {
    HistoryGrows(s.core, v, SetProducer(s.core, p, pc), SetProducer(v, p, pc), evicted, |Counting(s.evicting)|);
    FreesMove(s.evicting, v.producers, v.producers[p := pc], v.cap, v.deq, v.enq, v.enq);
  }

  /** A spin may find its slot or not. */
  lemma SpinKeeps(s: OState, v: State, evicted: set<nat>, p: nat)
    requires Sound(s, v, evicted) && p in v.producers && p !in s.evicting && v.producers[p].Spin?
    ensures Shape(s.core)
    ensures var s' := ApplyProducer(s.core, p, false);
            p in s'.producers && Sound(s.(core := s'), SetProducer(v, p, s'.producers[p]), evicted)
  {
    var pc := ApplyProducer(s.core, p, false).producers[p];
    assert ProducerOk(v, v.producers[p]);
    QuietStep(v, p, pc);
    forall t | HeldEarly(v.producers, t) ensures HeldEarly(v.producers[p := pc], t) { HeldEarlyMove(v.producers, p, pc, t); }
    StepsOn(s, v, evicted, p, pc);
  }

  /** The last look finds the slot, unless it is still to be freed. */
  lemma RecheckKeeps(s: OState, v: State, evicted: set<nat>, p: nat)
    requires Sound(s, v, evicted) && p in v.producers && p !in s.evicting && v.producers[p].Recheck?
    requires !Waiting(s.evicting, v.cap, v.producers[p].pos)
    ensures Shape(s.core) && Sound(s.(core := ApplyProducer(s.core, p, false)), ApplyProducer(v, p, false), evicted)
  {
    var pos := v.producers[p].pos;
    assert ProducerOk(v, v.producers[p]);
    SeqIsTicket(v, p);
    Unfreed(s, v, pos);
    InvStep(v, Produce(p, false));
    var pc := Copy(v.producers[p].e, pos, 0);
    forall t: nat | HeldEarly(v.producers, t) && Waiting(s.evicting, v.cap, t) ensures HeldEarly(v.producers[p := pc], t) {
      HeldEarlyMove(v.producers, p, pc, t);
    }
    StepsOn(s, v, evicted, p, pc);
  }

  /** Whoever has found its slot is alone with it. */
  lemma OwnSlot(s: OState, v: State, evicted: set<nat>, p: nat)
    requires Sound(s, v, evicted) && p in v.producers && (v.producers[p].Copy? || v.producers[p].Seal? || v.producers[p].Publish?)
    ensures var pos := v.producers[p].pos;
            && v.deq <= pos < v.enq && s.core.slots[Lap(v.cap, pos)] == v.slots[Lap(v.cap, pos)]
            && forall q :: Frees(s.evicting, q) ==> Lap(v.cap, s.evicting[q].head) != Lap(v.cap, pos)
  {
    var pos := v.producers[p].pos;
    assert ProducerOk(v, v.producers[p]) && Holds(v.producers[p], pos);
    if HeldEarly(v.producers, pos) {
      var q :| q in v.producers && (v.producers[q].Spin? || v.producers[q].Recheck?) && v.producers[q].pos == pos;
      assert Holds(v.producers[q], pos);
    }
    NotWaiting(s, v, pos);
    Unfreed(s, v, pos);
    FreesElsewhere(s, v, pos);
  }

  /** Writing and publishing a line. */
  lemma WriteKeeps(s: OState, v: State, evicted: set<nat>, p: nat)
    requires Sound(s, v, evicted) && p in v.producers && p !in s.evicting
    requires v.producers[p].Copy? || v.producers[p].Seal? || v.producers[p].Publish?
    ensures Shape(s.core) && Sound(s.(core := ApplyProducer(s.core, p, false)), ApplyProducer(v, p, false), evicted)
  {
    InvStep(v, Produce(p, false));
    OwnSlot(s, v, evicted, p);
    WriteMirrors(s.core, v, p);
    var s', v' := ApplyProducer(s.core, p, false), ApplyProducer(v, p, false);
    MatchedWrite(s.core.slots, v.slots, s.evicting, v.cap, Lap(v.cap, v.producers[p].pos), v'.slots[Lap(v.cap, v.producers[p].pos)]);
    HistoryGrows(s.core, v, s', v', evicted, |Counting(s.evicting)|);
    forall t | HeldEarly(v.producers, t) ensures HeldEarly(v'.producers, t) {
      if p in v'.producers { HeldEarlyMove(v.producers, p, v'.producers[p], t); } else { HeldEarlyWithout(v.producers, p, t); }
    }
    FreesMove(s.evicting, v.producers, v'.producers, v.cap, v.deq, v.enq, v.enq);
  }

  lemma WriteMirrors(s: State, v: State, p: nat)
    requires Mirrors(s, v) && Shape(s) && Shape(v) && p in v.producers
    requires v.producers[p].Copy? || v.producers[p].Seal? || v.producers[p].Publish?
    requires s.slots[At(v, v.producers[p].pos)] == v.slots[At(v, v.producers[p].pos)]
    requires v.producers[p].Copy? ==> v.producers[p].i <= |v.producers[p].e.text|
    ensures var s', v', i := ApplyProducer(s, p, false), ApplyProducer(v, p, false), At(v, v.producers[p].pos);
            && Mirrors(s', v') && v'.cap == v.cap && v'.deq == v.deq && v'.enq == v.enq
            && s'.slots == s.slots[i := v'.slots[i]] && v'.slots == v.slots[i := v'.slots[i]]
            && s'.popped == s.popped && s'.claimed == s.claimed && s'.dropped == s.dropped && v'.dropped == v.dropped
            && (v'.producers == v.producers - {p} || (p in v'.producers && v'.producers == v.producers[p := v'.producers[p]]))
            && (p in v'.producers ==> !v'.producers[p].Spin? && !v'.producers[p].Recheck?)
  {
  }

  // ----- the consumer -----

  /** The ticket of the window that shares the slot of an earlier one. */
  lemma {:induction false} LapAhead(cap: nat, pos: nat, deq: nat) returns (t: nat)
    requires cap > 0 && pos < deq
    ensures deq <= t < deq + cap && t >= pos + cap && Lap(cap, t) == Lap(cap, pos)
    decreases deq - pos
  {
    SameSlot(cap, pos);
    if pos + cap >= deq {
      t := pos + cap;
    } else {
      t := LapAhead(cap, pos + cap, deq);
    }
  }

  /** A pop whose head was evicted finds a slot that has moved on, once that slot is freed. */
  lemma OvertakenSlot(s: OState, v: State, evicted: set<nat>, pos: nat)
    requires Sound(s, v, evicted) && pos < v.deq && !Freeing(s.evicting, pos)
    ensures s.core.slots[Lap(v.cap, pos)].seqno != pos + 1
  {
    var i := Lap(v.cap, pos);
    if s.core.slots[i] == v.slots[i] {
      var t := LapAhead(v.cap, pos, v.deq);
      assert SlotOk(v, t);
    } else {
      var p :| Frees(s.evicting, p) && Lap(v.cap, s.evicting[p].head) == i;
      assert s.evicting[p].head != pos;
    }
  }

  /** A pop that is up to date sees what it should. */
  lemma HeadSlot(s: OState, v: State)
    requires v.cap >= 2 && FreesOk(s.evicting, v.producers, v.cap, v.deq, v.enq) && SlotsMatch(s.core.slots, v.slots, s.evicting, v.cap)
    ensures var slot, w := s.core.slots[Lap(v.cap, v.deq)], v.slots[Lap(v.cap, v.deq)];
            slot.text == w.text && slot.level == w.level && (slot.seqno == v.deq + 1 <==> w.seqno == v.deq + 1)
  {
    if Waiting(s.evicting, v.cap, v.deq) {
      var h := v.deq - v.cap;
      var p :| Frees(s.evicting, p) && s.evicting[p].head == h;
      SameSlot(v.cap, h);
      assert SlotFreed(s.core.slots[Lap(v.cap, h)], v.slots[Lap(v.cap, h)], h, v.cap);
    } else {
      Unfreed(s, v, v.deq);
    }
  }

  /** The line being taken sits in a slot of its own. */
  lemma TakenSlot(s: OState, v: State, evicted: set<nat>)
    requires Matches(s, v, evicted) && v.deq < v.enq && !Held(v.producers, v.deq)
    ensures !Waiting(s.evicting, v.cap, v.deq) && s.core.slots[Lap(v.cap, v.deq)] == v.slots[Lap(v.cap, v.deq)]
    ensures forall q :: Frees(s.evicting, q) ==> Lap(v.cap, s.evicting[q].head) != Lap(v.cap, v.deq)
  {
    NotWaiting(s, v, v.deq);
    Unfreed(s, v, v.deq);
    FreesElsewhere(s, v, v.deq);
  }

  /** An overtaken pop gives up. */
  lemma OvertakenKeeps(s: OState, v: State, evicted: set<nat>)
    requires Sound(s, v, evicted) && Overtaken(s.core) && !BadLook(s, Consume)
    ensures Shape(s.core) && Sound(s.(core := ApplyConsumer(s.core)), v, evicted)
  {
    if s.core.consumer.ReadSeq? { OvertakenSlot(s, v, evicted, s.core.consumer.pos); }
    HistoryGrows(s.core, v, ApplyConsumer(s.core), v, evicted, |Counting(s.evicting)|);
  }

  /** Looking and copying. */
  lemma LookKeeps(s: OState, v: State, evicted: set<nat>)
    requires Sound(s, v, evicted) && !Overtaken(s.core) && !v.consumer.Release? && !v.consumer.Advance?
    ensures Shape(s.core) && Sound(s.(core := ApplyConsumer(s.core)), ApplyConsumer(v), evicted)
  {
    InvStep(v, Consume);
    HeadSlot(s, v);
    LookMirrors(s.core, v);
    HistoryGrows(s.core, v, ApplyConsumer(s.core), ApplyConsumer(v), evicted, |Counting(s.evicting)|);
  }

  lemma LookMirrors(s: State, v: State)
    requires Mirrors(s, v) && Shape(s) && Shape(v) && v.consumer == s.consumer && !v.consumer.Release? && !v.consumer.Advance?
    requires !v.consumer.Idle? ==> v.consumer.pos == v.deq
    requires var slot, w := s.slots[At(v, v.deq)], v.slots[At(v, v.deq)];
             slot.text == w.text && slot.level == w.level && (slot.seqno == v.deq + 1 <==> w.seqno == v.deq + 1)
    ensures var s', v' := ApplyConsumer(s), ApplyConsumer(v);
            Mirrors(s', v') && s' == s.(consumer := s'.consumer) && v' == v.(consumer := v'.consumer)
  {
  }

  /** The store that releases the slot. */
  lemma ReleaseKeeps(s: OState, v: State, evicted: set<nat>)
    requires Sound(s, v, evicted) && v.consumer.Release?
    ensures Shape(s.core) && Sound(s.(core := ApplyConsumer(s.core)), ApplyConsumer(v), evicted)
  {
    InvStep(v, Consume);
    TakenSlot(s, v, evicted);
    var i := Lap(v.cap, v.deq);
    MatchedWrite(s.core.slots, v.slots, s.evicting, v.cap, i, v.slots[i].(seqno := v.deq + v.cap));
    HistoryGrows(s.core, v, ApplyConsumer(s.core), ApplyConsumer(v), evicted, |Counting(s.evicting)|);
  }

  /** The store that advances the head. */
  lemma AdvanceKeeps(s: OState, v: State, evicted: set<nat>)
    requires Sound(s, v, evicted) && v.consumer.Advance?
    ensures Shape(s.core) && Sound(s.(core := ApplyConsumer(s.core)), ApplyConsumer(v), evicted)
  {
    InvStep(v, Consume);
    TakenSlot(s, v, evicted);
    FreesShift(s.evicting, v.producers, v.cap, v.deq, v.enq);
    assert s.core.popped + [s.core.claimed[s.core.deq]] == Survivors(s.core.claimed, s.core.deq + 1, evicted);
  }

  lemma FreesShift(evicting: map<nat, Eviction>, ps: map<nat, Producer>, cap: nat, deq: nat, enq: nat)
    requires FreesOk(evicting, ps, cap, deq, enq) && !Waiting(evicting, cap, deq)
    ensures FreesOk(evicting, ps, cap, deq + 1, enq)
  {
    forall p | Frees(evicting, p) ensures evicting[p].head + cap != deq {
      assert Freeing(evicting, evicting[p].head);
    }
  }

  lemma ConsumerKeeps(s: OState, v: State, evicted: set<nat>) returns (v': State)
    requires Sound(s, v, evicted) && !BadLook(s, Consume)
    ensures Shape(s.core) && Sound(s.(core := ApplyConsumer(s.core)), v', evicted)
  {
    if Overtaken(s.core) {
      OvertakenKeeps(s, v, evicted);
      v' := v;
    } else {
      if v.consumer.Release? { ReleaseKeeps(s, v, evicted); }
      else if v.consumer.Advance? { AdvanceKeeps(s, v, evicted); }
      else { LookKeeps(s, v, evicted); }
      v' := ApplyConsumer(v);
    }
  }

  // ----- evictions -----

  /** Two sets of evicters with the same slots to free. */
  ghost predicate SameFreeing(ev: map<nat, Eviction>, ev': map<nat, Eviction>) {
    forall p :: (Frees(ev, p) <==> Frees(ev', p)) && (Frees(ev, p) ==> ev'[p].head == ev[p].head)
  }

  lemma SameFrees(slots: seq<Slot>, vs: seq<Slot>, ev: map<nat, Eviction>, ev': map<nat, Eviction>, ps: map<nat, Producer>, cap: nat, deq: nat, enq: nat)
    requires FreesOk(ev, ps, cap, deq, enq) && SlotsMatch(slots, vs, ev, cap) && SameFreeing(ev, ev')
    ensures FreesOk(ev', ps, cap, deq, enq) && SlotsMatch(slots, vs, ev', cap)
  {
    forall i | 0 <= i < cap && slots[i] != vs[i] ensures exists p :: Frees(ev', p) && Lap(cap, ev'[p].head) == i {
      var p :| Frees(ev, p) && Lap(cap, ev[p].head) == i;
      assert Frees(ev', p);
    }
  }

  /** The evicters move on, with the same slots to free. */
  lemma EvictersMove(s: OState, v: State, evicted: set<nat>, core': State, ev': map<nat, Eviction>)
    requires Sound(s, v, evicted) && SameFreeing(s.evicting, ev') && EvictersOk(ev', v.producers)
    requires core' == s.core.(dropped := core'.dropped) && core'.dropped + |Counting(ev')| == s.core.dropped + |Counting(s.evicting)|
    ensures Sound(OState(core', ev'), v, evicted)
  {
    SameFrees(s.core.slots, v.slots, s.evicting, ev', v.producers, v.cap, v.deq, v.enq);
  }

  /** Starting an eviction, or giving it up, before the head is taken. */
  lemma StartCounts(ev: map<nat, Eviction>, p: nat, head: nat)
    requires p in ev ==> ev[p].Swap?
    ensures var on, off := ev[p := Swap(head)], ev - {p};
            && SameFreeing(ev, on) && Counting(on) == Counting(ev) && SameFreeing(ev, off) && Counting(off) == Counting(ev)
  {
  }

  lemma DropCounts(ev: map<nat, Eviction>, p: nat)
    requires p in ev && ev[p].Count?
    ensures var ev' := ev[p := Free(ev[p].head)]; SameFreeing(ev, ev') && |Counting(ev)| == |Counting(ev')| + 1
  {
    var ev' := ev[p := Free(ev[p].head)];
    assert Counting(ev) == Counting(ev') + {p} && p !in Counting(ev');
  }

  /** Finding the ring full. */
  lemma FullKeeps(s: OState, v: State, evicted: set<nat>, p: nat)
    requires Sound(s, v, evicted) && p in v.producers && p !in s.evicting && v.producers[p].LoadHead?
    ensures var e := v.producers[p].e;
            Sound(OState(SetProducer(s.core, p, LoadTail(e)), s.evicting[p := Swap(s.core.deq)]), SetProducer(v, p, LoadTail(e)), evicted)
  {
    var pc := LoadTail(v.producers[p].e);
    assert ProducerOk(v, v.producers[p]);
    QuietStep(v, p, pc);
    forall t | HeldEarly(v.producers, t) ensures HeldEarly(v.producers[p := pc], t) { HeldEarlyMove(v.producers, p, pc, t); }
    StepsOn(s, v, evicted, p, pc);
    var s1, v1 := s.(core := SetProducer(s.core, p, pc)), SetProducer(v, p, pc);
    StartCounts(s.evicting, p, s.core.deq);
    EvictersMove(s1, v1, evicted, s1.core, s.evicting[p := Swap(s.core.deq)]);
  }

  /** Missing the head. */
  lemma MissKeeps(s: OState, v: State, evicted: set<nat>, p: nat)
    requires Sound(s, v, evicted) && p in s.evicting && s.evicting[p].Swap?
    ensures Sound(s.(evicting := s.evicting - {p}), v, evicted)
  {
    StartCounts(s.evicting, p, 0);
    EvictersMove(s, v, evicted, s.core, s.evicting - {p});
  }

  /** Counting the drop. */
  lemma CountKeeps(s: OState, v: State, evicted: set<nat>, p: nat)
    requires Sound(s, v, evicted) && p in s.evicting && s.evicting[p].Count?
    ensures Sound(OState(s.core.(dropped := s.core.dropped + 1), s.evicting[p := Free(s.evicting[p].head)]), v, evicted)
  {
    DropCounts(s.evicting, p);
    EvictersMove(s, v, evicted, s.core.(dropped := s.core.dropped + 1), s.evicting[p := Free(s.evicting[p].head)]);
  }

  lemma SoundShape(s: OState, v: State, evicted: set<nat>)
    requires Sound(s, v, evicted)
    ensures OShape(s) && s.core.cap == v.cap
  {
    forall i | 0 <= i < v.cap ensures |s.core.slots[i].text| == MSG_MAX {
      if s.core.slots[i] != v.slots[i] {
        var p :| Frees(s.evicting, p) && Lap(v.cap, s.evicting[p].head) == i;
        assert SlotFreed(s.core.slots[i], v.slots[i], s.evicting[p].head, v.cap);
      }
    }
  }

  /** The slots after the head of p is freed. */
  ghost function Freed(slots: seq<Slot>, h: nat, cap: nat): seq<Slot>
    requires 0 < cap == |slots|
  {
    slots[Lap(cap, h) := slots[Lap(cap, h)].(seqno := h + cap)]
  }

  /** Freeing the slot. */
  lemma FreeKeeps(s: OState, v: State, evicted: set<nat>, p: nat)
    requires Matches(s, v, evicted) && p in s.evicting && s.evicting[p].Free?
    ensures Matches(OState(s.core.(slots := Freed(s.core.slots, s.evicting[p].head, v.cap)), s.evicting - {p}), v, evicted)
  {
    FreedNow(s.core.slots, v.slots, s.evicting, v.producers, v.cap, v.deq, v.enq, p);
    FreesWithout(s.evicting, v.producers, v.cap, v.deq, v.enq, p);
    FreeCounts(s.evicting, v.producers, p);
    SlotsMove(s, v, evicted, Freed(s.core.slots, s.evicting[p].head, v.cap), s.evicting - {p});
  }

  lemma FreeCounts(ev: map<nat, Eviction>, ps: map<nat, Producer>, p: nat)
    requires p in ev && ev[p].Free? && EvictersOk(ev, ps)
    ensures EvictersOk(ev - {p}, ps) && Counting(ev - {p}) == Counting(ev)
  {
  }

  lemma SlotsMove(s: OState, v: State, evicted: set<nat>, slots: seq<Slot>, ev': map<nat, Eviction>)
    requires Matches(s, v, evicted) && EvictersOk(ev', v.producers) && Counting(ev') == Counting(s.evicting)
    requires FreesOk(ev', v.producers, v.cap, v.deq, v.enq) && SlotsMatch(slots, v.slots, ev', v.cap)
    ensures Matches(OState(s.core.(slots := slots), ev'), v, evicted)
  {
  }

  lemma FreesWithout(ev: map<nat, Eviction>, ps: map<nat, Producer>, cap: nat, deq: nat, enq: nat, p: nat)
    requires FreesOk(ev, ps, cap, deq, enq)
    ensures FreesOk(ev - {p}, ps, cap, deq, enq)
  {
    assert forall q :: Frees(ev - {p}, q) ==> Frees(ev, q) && (ev - {p})[q] == ev[q];
  }

  /** The slots of two evicted heads are different. */
  lemma FreesApart(ev: map<nat, Eviction>, ps: map<nat, Producer>, cap: nat, deq: nat, enq: nat, p: nat, q: nat)
    requires FreesOk(ev, ps, cap, deq, enq) && cap > 0 && Frees(ev, p) && Frees(ev, q) && p != q
    ensures Lap(cap, ev[p].head) != Lap(cap, ev[q].head)
  {
    SameSlot(cap, ev[p].head);
    SameSlot(cap, ev[q].head);
    if Lap(cap, ev[p].head) == Lap(cap, ev[q].head) { OneTicket(cap, deq, ev[p].head + cap, ev[q].head + cap); }
  }

  lemma FreedNow(slots: seq<Slot>, vs: seq<Slot>, ev: map<nat, Eviction>, ps: map<nat, Producer>, cap: nat, deq: nat, enq: nat, p: nat)
    requires FreesOk(ev, ps, cap, deq, enq) && SlotsMatch(slots, vs, ev, cap) && Frees(ev, p)
    ensures SlotsMatch(Freed(slots, ev[p].head, cap), vs, ev - {p}, cap)
  {
    var ev', h := ev - {p}, ev[p].head;
    var i := Lap(cap, h);
    var slots' := Freed(slots, h, cap);
    forall q | Frees(ev', q) ensures Lap(cap, ev'[q].head) != i && SlotFreed(slots'[Lap(cap, ev'[q].head)], vs[Lap(cap, ev'[q].head)], ev'[q].head, cap) {
      assert Frees(ev, q) && ev'[q] == ev[q];
      FreesApart(ev, ps, cap, deq, enq, p, q);
    }
    forall j | 0 <= j < cap && slots'[j] != vs[j] ensures exists q :: Frees(ev', q) && Lap(cap, ev'[q].head) == j {
      var q :| Frees(ev, q) && Lap(cap, ev[q].head) == j;
      assert q != p && Frees(ev', q);
    }
  }

  /** Taking the head: a pop in no time, but for the slot, which is still to be freed. */
  lemma PopInNoTime(v: State)
    requires Inv(v) && Evictable(v)
    ensures v.deq < |v.claimed|
    ensures var v1 := v.(consumer := Release(v.deq, v.claimed[v.deq])); Shape(v1) && Inv(ApplyConsumer(ApplyConsumer(v1)))
  {
    LookFrame(v, Idle);
    var v1 := v.(consumer := Idle);
    LookFrame(v1, Release(v.deq, v.claimed[v.deq]));
    var v2 := v.(consumer := Release(v.deq, v.claimed[v.deq]));
    ReleaseStep(v2);
    AdvanceStep(ApplyConsumer(v2));
  }

  /** The ring without its oldest line. */
  ghost function Popped(v: State): State
    requires Shape(v) && v.deq < |v.claimed|
  {
    v.(slots := Freed(v.slots, v.deq, v.cap), deq := v.deq + 1, popped := v.popped + [v.claimed[v.deq]], consumer := Idle)
  }

  lemma PoppedInv(v: State)
    requires Inv(v) && Evictable(v)
    ensures v.deq < |v.claimed| && Inv(Popped(v))
  {
    PopInNoTime(v);
    var v1 := v.(consumer := Release(v.deq, v.claimed[v.deq]));
    assert Popped(v) == ApplyConsumer(ApplyConsumer(v1));
  }

  lemma TakenFrees(ev: map<nat, Eviction>, ps: map<nat, Producer>, cap: nat, deq: nat, enq: nat, p: nat)
    requires FreesOk(ev, ps, cap, deq, enq) && !Waiting(ev, cap, deq) && p in ev && ev[p].Swap? && enq <= deq + cap && cap > 0
    ensures FreesOk(ev[p := Count(deq)], ps, cap, deq + 1, enq)
  {
    FreesShift(ev, ps, cap, deq, enq);
    var ev' := ev[p := Count(deq)];
    assert forall q :: Frees(ev', q) && q != p ==> Frees(ev, q) && ev'[q] == ev[q] && ev[q].head < deq;
  }

  lemma NewlyFreed(slots: seq<Slot>, vs: seq<Slot>, ev: map<nat, Eviction>, cap: nat, h: nat, p: nat)
    requires SlotsMatch(slots, vs, ev, cap) && p in ev && ev[p].Swap?
    requires slots[Lap(cap, h)] == vs[Lap(cap, h)] && vs[Lap(cap, h)].seqno == h + 1
    requires forall q :: Frees(ev, q) ==> Lap(cap, ev[q].head) != Lap(cap, h)
    ensures SlotsMatch(slots, Freed(vs, h, cap), ev[p := Count(h)], cap)
  {
    var vs', ev', i := Freed(vs, h, cap), ev[p := Count(h)], Lap(cap, h);
    forall q | Frees(ev', q) ensures SlotFreed(slots[Lap(cap, ev'[q].head)], vs'[Lap(cap, ev'[q].head)], ev'[q].head, cap) {
      if q != p { assert Frees(ev, q) && ev'[q] == ev[q]; }
    }
    forall j | 0 <= j < cap && slots[j] != vs'[j] ensures exists q :: Frees(ev', q) && Lap(cap, ev'[q].head) == j {
      if j == i {
        assert Frees(ev', p);
      } else {
        var q :| Frees(ev, q) && Lap(cap, ev[q].head) == j;
        assert Frees(ev', q) && ev'[q] == ev[q];
      }
    }
  }

  lemma SwapHistory(s: State, v: State, v': State, evicted: set<nat>, ev: map<nat, Eviction>, p: nat)
    requires HistoryOk(s, v, evicted, |Counting(ev)|) && s.deq < |s.claimed| && p in ev && ev[p].Swap? && v'.dropped == v.dropped
    ensures HistoryOk(s.(deq := s.deq + 1), v', evicted + {s.deq}, |Counting(ev[p := Count(s.deq)])|)
  {
    var ev' := ev[p := Count(s.deq)];
    assert Counting(ev') == Counting(ev) + {p} && p !in Counting(ev);
    assert s.deq !in evicted && |evicted + {s.deq}| == |evicted| + 1;
    SurvivorsPrefix(s.claimed, [], s.deq, evicted, evicted + {s.deq});
    assert s.claimed + [] == s.claimed;
  }

  lemma SwapMatches(s: OState, v: State, evicted: set<nat>, p: nat)
    requires Matches(s, v, evicted) && p in s.evicting && s.evicting[p] == Swap(s.core.deq) && Evictable(s.core)
    requires Shape(v) && v.deq < |v.claimed| && v.enq <= v.deq + v.cap && (!v.consumer.Idle? ==> v.consumer.pos == v.deq)
    requires v.slots[Lap(v.cap, v.deq)].seqno == v.deq + 1
    ensures Matches(OState(s.core.(deq := s.core.deq + 1), s.evicting[p := Count(s.core.deq)]), Popped(v), evicted + {s.core.deq})
  {
    var core', ev', v' := s.core.(deq := s.core.deq + 1), s.evicting[p := Count(s.core.deq)], Popped(v);
    assert Mirrors(core', v') by { SwapMirrors(s.core, v); }
    assert HistoryOk(core', v', evicted + {s.core.deq}, |Counting(ev')|) by { SwapHistory(s.core, v, v', evicted, s.evicting, p); }
    SwapSlots(s, v, evicted, p);
    ByParts(core', ev', v', evicted + {s.core.deq});
  }

  lemma ByParts(core: State, ev: map<nat, Eviction>, v: State, evicted: set<nat>)
    requires Mirrors(core, v) && EvictersOk(ev, v.producers) && FreesOk(ev, v.producers, v.cap, v.deq, v.enq)
    requires SlotsMatch(core.slots, v.slots, ev, v.cap) && HistoryOk(core, v, evicted, |Counting(ev)|)
    ensures Matches(OState(core, ev), v, evicted)
  {
  }

  lemma SwapSlots(s: OState, v: State, evicted: set<nat>, p: nat)
    requires Matches(s, v, evicted) && p in s.evicting && s.evicting[p].Swap? && v.deq < v.enq <= v.deq + v.cap && !Held(v.producers, v.deq)
    requires v.cap > 0 && v.slots[Lap(v.cap, v.deq)].seqno == v.deq + 1
    requires Shape(v) && v.deq < |v.claimed|
    ensures var ev', v' := s.evicting[p := Count(v.deq)], Popped(v);
            && EvictersOk(ev', v'.producers) && FreesOk(ev', v'.producers, v'.cap, v'.deq, v'.enq)
            && SlotsMatch(s.core.slots, v'.slots, ev', v'.cap)
  {
    TakenSlot(s, v, evicted);
    TakenFrees(s.evicting, v.producers, v.cap, v.deq, v.enq, p);
    NewlyFreed(s.core.slots, v.slots, s.evicting, v.cap, v.deq, p);
  }

  lemma SwapKeeps(s: OState, v: State, evicted: set<nat>, p: nat)
    requires Sound(s, v, evicted) && p in s.evicting && s.evicting[p] == Swap(s.core.deq) && Evictable(s.core)
    ensures Shape(v) && v.deq < |v.claimed|
    ensures Sound(OState(s.core.(deq := s.core.deq + 1), s.evicting[p := Count(s.core.deq)]), Popped(v), evicted + {s.core.deq})
  {
    assert SlotOk(v, v.deq);
    SwapMatches(s, v, evicted, p);
    PoppedInv(v);
  }

  lemma SwapMirrors(s: State, v: State)
    requires Mirrors(s, v) && Shape(v) && v.deq < |v.claimed| && Evictable(s) && (!v.consumer.Idle? ==> v.consumer.pos == v.deq)
    ensures Mirrors(s.(deq := s.deq + 1), Popped(v))
  {
  }

  // ----- every step -----

  /** A step that is not bad keeps the ring sound, and only a swap that takes the head evicts its ticket. */
  lemma GoodStep(s: OState, v: State, evicted: set<nat>, a: Action)
    requires Sound(s, v, evicted) && Enabled(s.core, a) && !Bad(s, a)
    ensures OShape(s) && SoundWith(OverwriteApply(s, a), evicted + Takes(s, a))
  {
    SoundShape(s, v, evicted);
    assert evicted + {} == evicted;
    if a.Consume? {
      var v' := ConsumerKeeps(s, v, evicted);
    } else if a.Produce? && a.p in s.evicting {
      EvictionKeeps(s, v, evicted, a.p, a.spurious);
    } else if a.Produce? {
      ProducerKeeps(s, v, evicted, a);
    } else {
      EnterKeeps(s, v, evicted, a);
    }
  }

  lemma EvictionKeeps(s: OState, v: State, evicted: set<nat>, p: nat, spurious: bool)
    requires Sound(s, v, evicted) && OShape(s) && p in s.evicting && !BadSwap(s, Produce(p, spurious))
    ensures SoundWith(EvictionStep(s, p, spurious), evicted + Takes(s, Produce(p, spurious)))
  {
    assert evicted + {} == evicted;
    if s.evicting[p].Swap? { SwapStep(s, v, evicted, p, spurious); }
    else if s.evicting[p].Count? { CountStep(s, v, evicted, p, spurious); }
    else { FreeStep(s, v, evicted, p, spurious); }
  }

  lemma CountStep(s: OState, v: State, evicted: set<nat>, p: nat, spurious: bool)
    requires Sound(s, v, evicted) && OShape(s) && p in s.evicting && s.evicting[p].Count?
    ensures Sound(EvictionStep(s, p, spurious), v, evicted)
  {
    CountKeeps(s, v, evicted, p);
  }

  lemma FreeStep(s: OState, v: State, evicted: set<nat>, p: nat, spurious: bool)
    requires Sound(s, v, evicted) && OShape(s) && p in s.evicting && s.evicting[p].Free?
    ensures Sound(EvictionStep(s, p, spurious), v, evicted)
  {
    FreeKeeps(s, v, evicted, p);
    FreeIs(s, p, spurious);
  }

  lemma SwapStep(s: OState, v: State, evicted: set<nat>, p: nat, spurious: bool)
    requires Sound(s, v, evicted) && OShape(s) && p in s.evicting && s.evicting[p].Swap? && !BadSwap(s, Produce(p, spurious))
    ensures SoundWith(EvictionStep(s, p, spurious), evicted + Takes(s, Produce(p, spurious)))
  {
    assert evicted + {} == evicted;
    if s.evicting[p] == Swap(s.core.deq) && !spurious {
      SwapKeeps(s, v, evicted, p);
    } else {
      MissKeeps(s, v, evicted, p);
      assert EvictionStep(s, p, spurious) == s.(evicting := s.evicting - {p});
    }
  }

  lemma FreeIs(s: OState, p: nat, spurious: bool)
    requires OShape(s) && p in s.evicting && s.evicting[p].Free?
    ensures EvictionStep(s, p, spurious)
         == OState(s.core.(slots := Freed(s.core.slots, s.evicting[p].head, s.core.cap)), s.evicting - {p})
  {
  }

  lemma ProducerKeeps(s: OState, v: State, evicted: set<nat>, a: Action)
    requires Sound(s, v, evicted) && OShape(s) && a.Produce? && a.p in s.core.producers && a.p !in s.evicting && !BadRecheck(s, a)
    ensures SoundWith(OverwriteApply(s, a), evicted)
  {
    var p, pc := a.p, v.producers[a.p];
    assert ProducerOk(v, pc);
    if FindsFull(s.core, a) { FullKeeps(s, v, evicted, p); }
    else if PreClaim(pc) { SeekKeeps(s, v, evicted, p, a.spurious); }
    else if pc.Spin? {
      SpinKeeps(s, v, evicted, p);
      SpuriousOrNot(s.core, p, a.spurious);
    } else if pc.Recheck? {
      RecheckKeeps(s, v, evicted, p);
      SpuriousOrNot(s.core, p, a.spurious);
    } else {
      WriteKeeps(s, v, evicted, p);
      SpuriousOrNot(s.core, p, a.spurious);
    }
  }

  /** Only the claim can fail for no cause. */
  lemma SpuriousOrNot(s: State, p: nat, spurious: bool)
    requires Shape(s) && p in s.producers && !s.producers[p].Cas?
    ensures ApplyProducer(s, p, spurious) == ApplyProducer(s, p, false)
  {
  }

  /** A bad step leaves no sound ring, however its history is told. */
  lemma BadStep(s: OState, v: State, evicted: set<nat>, a: Action)
    requires Sound(s, v, evicted) && Enabled(s.core, a) && Bad(s, a)
    ensures OShape(s) && !SoundAtAll(OverwriteApply(s, a))
  {
    SoundShape(s, v, evicted);
    if BadSwap(s, a) { SwapBreaks(s, v, evicted, a); }
    else if BadRecheck(s, a) { RecheckTimesOut(s, v, evicted, a); }
    else { LookTakes(s, v, evicted); }
    var s' := OverwriteApply(s, a);
    forall v', told ensures !Sound(s', v', told) { BrokenIsUnsound(s', v', told); }
  }

  /** What cannot be in a sound ring. */
  ghost predicate Broken(s: State) {
    || s.deq > s.enq
    || (exists q :: q in s.producers && (s.producers[q].TimedOut? || (Owner(s.producers[q]) && s.producers[q].pos < s.deq)))
    || ((s.consumer.Fetch? || s.consumer.Release? || s.consumer.Advance?) && s.consumer.pos < s.deq)
  }

  lemma BrokenIsUnsound(s: OState, v: State, evicted: set<nat>)
    requires Broken(s.core)
    ensures !Sound(s, v, evicted)
  {
  }

  /** The head passes the tail, a ticket that is held, or the line being taken. */
  lemma SwapBreaks(s: OState, v: State, evicted: set<nat>, a: Action)
    requires Sound(s, v, evicted) && OShape(s) && Enabled(s.core, a) && BadSwap(s, a)
    ensures Broken(OverwriteApply(s, a).core)
  {
    var s' := OverwriteApply(s, a);
    if s.core.deq < s.core.enq && Held(s.core.producers, s.core.deq) {
      var q :| q in s.core.producers && Holds(s.core.producers[q], s.core.deq);
      assert s'.core.producers[q] == s.core.producers[q];
    }
  }

  /** The holder gives up a ticket it has claimed. */
  lemma RecheckTimesOut(s: OState, v: State, evicted: set<nat>, a: Action)
    requires Matches(s, v, evicted) && v.cap >= 2 && OShape(s) && Enabled(s.core, a) && BadRecheck(s, a)
    ensures OverwriteApply(s, a).core.producers[a.p].TimedOut? && Broken(OverwriteApply(s, a).core)
  {
    WaitingSlot(s.core.slots, v.slots, s.evicting, v.cap, s.core.producers[a.p].pos);
    assert OverwriteApply(s, a).core.producers[a.p].TimedOut?;
  }

  /** The slot of a waiting ticket does not carry it yet. */
  lemma WaitingSlot(slots: seq<Slot>, vs: seq<Slot>, evicting: map<nat, Eviction>, cap: nat, t: nat)
    requires SlotsMatch(slots, vs, evicting, cap) && cap >= 2 && Waiting(evicting, cap, t)
    ensures slots[Lap(cap, t)].seqno != t
  {
    var h := t - cap;
    var p :| Frees(evicting, p) && evicting[p].head == h;
    SameSlot(cap, h);
    assert SlotFreed(slots[Lap(cap, h)], vs[Lap(cap, h)], h, cap);
  }

  /** The consumer takes a line that was evicted. */
  lemma LookTakes(s: OState, v: State, evicted: set<nat>)
    requires Matches(s, v, evicted) && v.cap >= 2 && OShape(s) && BadLook(s, Consume)
    ensures OverwriteApply(s, Consume).core.consumer.Fetch? && Broken(OverwriteApply(s, Consume).core)
  {
    var h := s.core.consumer.pos;
    var p :| Frees(s.evicting, p) && s.evicting[p].head == h;
    assert SlotFreed(s.core.slots[Lap(v.cap, h)], v.slots[Lap(v.cap, h)], h, v.cap);
  }

  lemma WithSome(s: OState, evicted: set<nat>)
    requires SoundWith(s, evicted)
    ensures SoundAtAll(s)
  {
  }

  lemma GoodStepWith(s: OState, evicted: set<nat>, a: Action)
    requires SoundWith(s, evicted) && Enabled(s.core, a) && !Bad(s, a)
    ensures OShape(s) && SoundWith(OverwriteApply(s, a), evicted + Takes(s, a))
  {
    var v :| Sound(s, v, evicted);
    GoodStep(s, v, evicted, a);
  }

  /** Exactly the steps that are not bad keep the ring sound. */
  lemma StepSoundIff(s: OState, a: Action)
    requires SoundAtAll(s) && Enabled(s.core, a)
    ensures OShape(s) && (SoundAtAll(OverwriteApply(s, a)) <==> !Bad(s, a))
  {
    var v, evicted :| Sound(s, v, evicted);
    if Bad(s, a) {
      BadStep(s, v, evicted, a);
    } else {
      GoodStep(s, v, evicted, a);
      WithSome(OverwriteApply(s, a), evicted + Takes(s, a));
    }
  }

  // ----- runs -----

  ghost predicate AlwaysSound(s: OState, acts: seq<Action>)
    decreases |acts|
  {
    SoundAtAll(s) && (acts != [] && OShape(s) && Enabled(s.core, acts[0]) ==> AlwaysSound(OverwriteApply(s, acts[0]), acts[1..]))
  }

  /** No step of the run is bad. */
  ghost predicate Careful(s: OState, acts: seq<Action>)
    decreases |acts|
  {
    acts != [] && OShape(s) && Enabled(s.core, acts[0]) ==> !Bad(s, acts[0]) && Careful(OverwriteApply(s, acts[0]), acts[1..])
  }

  /** A run stays sound exactly as long as no step is bad. */
  lemma {:induction false} SoundIffCareful(s: OState, acts: seq<Action>, s': OState)
    requires SoundAtAll(s) && OverwriteRun(s, acts, s')
    ensures AlwaysSound(s, acts) <==> Careful(s, acts)
    ensures Careful(s, acts) ==> SoundAtAll(s')
    decreases |acts|
  {
    if acts != [] {
      StepSoundIff(s, acts[0]);
      var s1 := OverwriteApply(s, acts[0]);
      if SoundAtAll(s1) { SoundIffCareful(s1, acts[1..], s'); }
    }
  }

  lemma CarefulFirst(s: OState, acts: seq<Action>, s': OState)
    requires acts != [] && OverwriteRun(s, acts, s') && Careful(s, acts)
    ensures OShape(s) && Enabled(s.core, acts[0]) && !Bad(s, acts[0])
    ensures var s1 := OverwriteApply(s, acts[0]);
            && OverwriteRun(s1, acts[1..], s') && Careful(s1, acts[1..])
            && Swapped(s, acts) == Takes(s, acts[0]) + Swapped(s1, acts[1..])
  {
  }

  lemma Unions(a: set<nat>, b: set<nat>, c: set<nat>)
    ensures a + b + c == a + (b + c) && a + {} == a
  {
  }

  /** In a careful run the tickets evicted are those its swaps take. */
  lemma {:induction false} CarefulEvicts(s: OState, evicted: set<nat>, acts: seq<Action>, s': OState)
    requires SoundWith(s, evicted) && OverwriteRun(s, acts, s') && Careful(s, acts)
    ensures SoundWith(s', evicted + Swapped(s, acts))
    decreases |acts|
  {
    if acts == [] {
      Unions(evicted, {}, {});
    } else {
      CarefulFirst(s, acts, s');
      var s1, taken := OverwriteApply(s, acts[0]), Takes(s, acts[0]);
      GoodStepWith(s, evicted, acts[0]);
      CarefulEvicts(s1, evicted + taken, acts[1..], s');
      Unions(evicted, taken, Swapped(s1, acts[1..]));
    }
  }

  lemma SoundInit(s: State)
    requires Init(s) && s.cap >= 2
    ensures Sound(OState(s, map[]), s, {})
  {
    InvInit(s);
    assert Counting(map[]) == {};
  }

  /**
   What OVERWRITE promises in every careful run: occupancy, popped lines once each and in ticket order with
   exactly those left out that its swaps took, no spin timeout, no text race, and with no call in progress nothing unaccounted for.
   */
  lemma OverwriteConserves(s0: State, acts: seq<Action>, s: OState) returns (evicted: set<nat>)
    requires Init(s0) && s0.cap >= 2 && OverwriteRun(OState(s0, map[]), acts, s) && Careful(OState(s0, map[]), acts)
    ensures evicted == Swapped(OState(s0, map[]), acts)
    ensures var c := s.core; c.deq <= c.enq == |c.claimed| && c.enq <= c.deq + c.cap
    ensures (forall t :: t in evicted ==> t < s.core.deq) && s.core.popped == Survivors(s.core.claimed, s.core.deq, evicted)
    ensures |evicted| + |s.core.popped| == s.core.deq
    ensures forall p :: p in s.core.producers ==> !s.core.producers[p].TimedOut?
    ensures s.core.cap > 0 && forall p, i :: WritesAt(s.core, p, i) ==> !ReadsAt(s.core, i) && forall q :: WritesAt(s.core, q, i) ==> q == p
    ensures s.core.producers == map[] ==> s.core.attempted == |s.core.popped| + (s.core.enq - s.core.deq) + s.core.dropped
  {
    SoundInit(s0);
    CarefulEvicts(OState(s0, map[]), {}, acts, s);
    evicted := Swapped(OState(s0, map[]), acts);
    assert {} + evicted == evicted;
    var v :| Sound(s, v, evicted);
    SoundCounts(s, v, evicted);
    SoundSafe(s, v, evicted);
  }

  lemma SoundCounts(s: OState, v: State, evicted: set<nat>)
    requires Sound(s, v, evicted)
    ensures |evicted| + |s.core.popped| == s.core.deq
    ensures s.core.producers == map[] ==> s.core.attempted == |s.core.popped| + (s.core.enq - s.core.deq) + s.core.dropped
  {
    SurvivorsCount(s.core.claimed, s.core.deq, evicted);
    assert Below(evicted, s.core.deq) == evicted;
    if s.core.producers == map[] {
      assert s.evicting == map[] && Counting(s.evicting) == {} && PreClaims(v.producers) == {};
    }
  }

  lemma SoundSafe(s: OState, v: State, evicted: set<nat>)
    requires Sound(s, v, evicted)
    ensures forall p :: p in s.core.producers ==> !s.core.producers[p].TimedOut?
    ensures s.core.cap > 0 && forall p, i :: WritesAt(s.core, p, i) ==> !ReadsAt(s.core, i) && forall q :: WritesAt(s.core, q, i) ==> q == p
  {
    forall p | p in s.core.producers ensures !s.core.producers[p].TimedOut? { assert ProducerOk(v, v.producers[p]); }
    forall p, i | WritesAt(s.core, p, i) ensures !ReadsAt(s.core, i) && forall q :: WritesAt(s.core, q, i) ==> q == p {
      assert WritesAt(v, p, i);
      TextApart(v, i, p);
      forall q | WritesAt(s.core, q, i) ensures q == p { assert WritesAt(v, q, i); }
    }
  }
}
