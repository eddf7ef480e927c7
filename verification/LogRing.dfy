/**
 The lock-free log ring of src/log/nv_log.c under the DROP and BLOCK policies:
 any number of producers and one consumer, interleaved one atomic access (or one
 byte of text) at a time, over sequentially consistent memory.

 The state keeps the source's ring plus three histories that no step reads:
 `claimed` (the line accepted for each ticket), `popped` and `attempted`.
 */
module LogRing {

  const MSG_MAX: nat := 4096
  const WORD: nat := 0x1_0000_0000_0000_0000
  const SPIN_LIMIT: nat := 10000

  /** What fits a slot beside its terminator. */
  type Line = s: string | |s| < MSG_MAX witness []

  datatype Entry = Entry(text: Line, level: int)

  datatype Slot = Slot(seqno: nat, level: int, text: seq<char>)

  /** Where a running push call stands; the comment names the next access. */
  datatype Producer =
    | LoadTail(e: Entry)                    // read enqueue_pos
    | LoadHead(e: Entry, pos: nat)          // read dequeue_pos
    | Cas(e: Entry, pos: nat)               // compare-exchange enqueue_pos
    | Dropping                              // count a drop and fail
    | Spin(e: Entry, pos: nat, spins: nat)  // read the slot's seq, bounded times
    | Recheck(e: Entry, pos: nat)           // read the slot's seq once more
    | TimedOut(e: Entry, pos: nat)          // count a drop after winning a ticket
    | Copy(e: Entry, pos: nat, i: nat)      // write byte i of the slot's text
    | Seal(e: Entry, pos: nat)              // write the terminator and the level
    | Publish(e: Entry, pos: nat)           // store seq = pos + 1

  datatype Consumer =
    | Idle                                  // read dequeue_pos
    | ReadTail(pos: nat)                    // read enqueue_pos
    | ReadSeq(pos: nat)                     // read the slot's seq
    | Fetch(pos: nat, out: seq<char>)       // read byte |out| of the slot's text
    | Release(pos: nat, got: Entry)         // store seq = pos + capacity
    | Advance(pos: nat, got: Entry)         // store dequeue_pos = pos + 1

  datatype State = State(
    cap: nat, slots: seq<Slot>, enq: nat, deq: nat, dropped: nat,
    producers: map<nat, Producer>, consumer: Consumer,
    claimed: seq<Entry>, popped: seq<Entry>, attempted: nat)

  datatype Action =
    | Refuse(p: nat)                        // line is NULL, or the ring is not running
    | Skip                                  // an empty line: nothing happens
    | Begin(p: nat, line: string, level: int)
    | Produce(p: nat, spurious: bool)       // next access of producer p
    | Consume                               // next access of the consumer

  // ----- C helpers -----

  /** Text up to the first NUL. */
  function CStr(s: seq<char>): (r: string)
    ensures |r| <= |s| && r == s[..|r|] && '\0' !in r
  {
    if s == [] || s[0] == '\0' then []
    else
      assert s == [s[0]] + s[1..];
      [s[0]] + CStr(s[1..])
  }

  /** The part of a line that is kept. */
  function Fit(line: string): (r: Line)
    ensures r <= line && (r == line || |r| == MSG_MAX - 1)
  {
    if |line| >= MSG_MAX then line[..MSG_MAX - 1] else line
  }

  /** The line a slot holds, as the consumer copies it. */
  function Stored(slot: Slot): Entry {
    Entry(Fit(CStr(slot.text)), slot.level)
  }

  /** uint64_t subtraction. */
  function Sub64(a: nat, b: nat): nat {
    (a - b) % WORD
  }

  /** Slot number of a ticket: pos & mask, with capacity a power of two (see Masks). */
  function At(s: State, pos: nat): (i: nat)
    requires s.cap > 0
    ensures i < s.cap
  {
    Lap(s.cap, pos)
  }

  function Lap(cap: nat, pos: nat): (i: nat)
    requires cap > 0
    ensures i < cap
  {
    if pos < cap then pos else Lap(cap, pos - cap)
  }

  // ----- the machine -----

  predicate Shape(s: State) {
    s.cap > 0 && |s.slots| == s.cap && forall i :: 0 <= i < s.cap ==> |s.slots[i].text| == MSG_MAX
  }

  ghost predicate Init(s: State) {
    && 0 < s.cap < WORD
    && Shape(s)
    && (forall i :: 0 <= i < s.cap ==> s.slots[i].seqno == i)
    && s.enq == 0 && s.deq == 0 && s.dropped == 0 && s.attempted == 0
    && s.producers == map[] && s.consumer == Idle
    && s.claimed == [] && s.popped == []
  }

  predicate Enabled(s: State, a: Action) {
    match a
    case Refuse(p) => p !in s.producers
    case Skip => true
    case Begin(p, line, _) => p !in s.producers && line != [] && '\0' !in line
    case Produce(p, _) => p in s.producers
    case Consume => true
  }

  function SetProducer(s: State, p: nat, pc: Producer): State {
    s.(producers := s.producers[p := pc])
  }

  function EndProducer(s: State, p: nat): State {
    s.(producers := s.producers - {p})
  }

  function SetSlot(s: State, pos: nat, slot: Slot): State
    requires Shape(s)
  {
    s.(slots := s.slots[At(s, pos) := slot])
  }

  function Apply(s: State, a: Action): State
    requires Shape(s) && Enabled(s, a)
  {
    match a
    case Refuse(p) => SetProducer(s, p, Dropping).(attempted := s.attempted + 1)
    case Skip => s
    case Begin(p, line, level) =>
      SetProducer(s, p, LoadTail(Entry(Fit(line), level))).(attempted := s.attempted + 1)
    case Produce(p, spurious) => ApplyProducer(s, p, spurious)
    case Consume => ApplyConsumer(s)
  }

  /** One access of nv_log_ring_push; `spurious` lets the weak CAS fail at will. */
  function ApplyProducer(s: State, p: nat, spurious: bool): State
    requires Shape(s) && p in s.producers
  {
    match s.producers[p]
    case LoadTail(e) => SetProducer(s, p, LoadHead(e, s.enq))
    case LoadHead(e, pos) =>
      SetProducer(s, p, if Sub64(pos, s.deq) >= s.cap then Dropping else Cas(e, pos))
    case Cas(e, pos) =>
      if s.enq == pos && !spurious then
        SetProducer(s, p, Spin(e, pos, 0)).(enq := pos + 1, claimed := s.claimed + [e])
      else
        SetProducer(s, p, LoadTail(e))
    case Dropping => EndProducer(s, p).(dropped := s.dropped + 1)
    case Spin(e, pos, spins) =>
      if s.slots[At(s, pos)].seqno == pos || spins + 1 >= SPIN_LIMIT then SetProducer(s, p, Recheck(e, pos))
      else SetProducer(s, p, Spin(e, pos, spins + 1))
    case Recheck(e, pos) =>
      SetProducer(s, p, if s.slots[At(s, pos)].seqno != pos then TimedOut(e, pos) else Copy(e, pos, 0))
    case TimedOut(_, _) => EndProducer(s, p).(dropped := s.dropped + 1)
    case Copy(e, pos, i) =>
      if i < |e.text| then
        var slot := s.slots[At(s, pos)];
        SetProducer(SetSlot(s, pos, slot.(text := slot.text[i := e.text[i]])), p, Copy(e, pos, i + 1))
      else
        SetProducer(s, p, Seal(e, pos))
    case Seal(e, pos) =>
      var slot := s.slots[At(s, pos)];
      SetProducer(SetSlot(s, pos, slot.(text := slot.text[|e.text| := '\0'], level := e.level)), p, Publish(e, pos))
    case Publish(e, pos) =>
      EndProducer(SetSlot(s, pos, s.slots[At(s, pos)].(seqno := pos + 1)), p)
  }

  /** One access of nv_log_ring_pop; a refused pop goes back to Idle. */
  function ApplyConsumer(s: State): State
    requires Shape(s)
  {
    match s.consumer
    case Idle => s.(consumer := ReadTail(s.deq))
    case ReadTail(pos) => s.(consumer := if pos >= s.enq then Idle else ReadSeq(pos))
    case ReadSeq(pos) =>
      s.(consumer := if s.slots[At(s, pos)].seqno != pos + 1 then Idle else Fetch(pos, []))
    case Fetch(pos, out) =>
      if |out| < MSG_MAX then
        s.(consumer := Fetch(pos, out + [s.slots[At(s, pos)].text[|out|]]))
      else
        s.(consumer := Release(pos, Stored(s.slots[At(s, pos)].(text := out))))
    case Release(pos, got) =>
      SetSlot(s, pos, s.slots[At(s, pos)].(seqno := pos + s.cap)).(consumer := Advance(pos, got))
    case Advance(pos, got) => s.(deq := pos + 1, popped := s.popped + [got], consumer := Idle)
  }

  // ----- the invariant -----

  /** Producer pc holds ticket t: it won the CAS and has not published yet. */
  predicate Holds(pc: Producer, t: nat) {
    Owner(pc) && pc.pos == t
  }

  predicate Owner(pc: Producer) {
    pc.Spin? || pc.Recheck? || pc.TimedOut? || pc.Copy? || pc.Seal? || pc.Publish?
  }

  ghost predicate Held(ps: map<nat, Producer>, t: nat) {
    exists p :: p in ps && Holds(ps[p], t)
  }

  predicate PreClaim(pc: Producer) {
    pc.LoadTail? || pc.LoadHead? || pc.Cas? || pc.Dropping?
  }

  ghost function PreClaims(ps: map<nat, Producer>): set<nat> {
    set p | p in ps && PreClaim(ps[p])
  }

  ghost predicate Published(s: State, t: nat) {
    t < s.enq && !Held(s.producers, t)
  }

  /** The seq number of the slot of ticket t says exactly whose it is. */
  ghost function Expected(s: State, t: nat): nat {
    if !Published(s, t) then t
    else if t == s.deq && s.consumer.Advance? then t + s.cap
    else t + 1
  }

  ghost predicate SlotOk(s: State, t: nat)
    requires Shape(s) && |s.claimed| == s.enq
  {
    var slot := s.slots[At(s, t)];
    && slot.seqno == Expected(s, t)
    && (Published(s, t) ==> Stored(slot) == s.claimed[t])
  }

  predicate GoodEntry(e: Entry) {
    e.text != [] && '\0' !in e.text
  }

  ghost predicate ProducerOk(s: State, pc: Producer)
    requires Shape(s) && |s.claimed| == s.enq
  {
    && (pc.Dropping? || GoodEntry(pc.e))
    && (pc.LoadHead? ==> pc.pos <= s.enq)
    && (pc.Cas? ==> pc.pos <= s.enq && pc.pos < s.deq + s.cap)
    && !pc.TimedOut?
    && (Owner(pc) ==>
          s.deq <= pc.pos < s.enq && s.claimed[pc.pos] == pc.e)
    && (pc.Copy? ==> pc.i <= |pc.e.text| && s.slots[At(s, pc.pos)].text[..pc.i] == pc.e.text[..pc.i])
    && (pc.Seal? ==> s.slots[At(s, pc.pos)].text[..|pc.e.text|] == pc.e.text)
    && (pc.Publish? ==> Stored(s.slots[At(s, pc.pos)]) == pc.e)
  }

  ghost predicate ConsumerOk(s: State)
    requires Shape(s) && |s.claimed| == s.enq
  {
    var c := s.consumer;
    && (!c.Idle? ==> c.pos == s.deq)
    && (!c.Idle? && !c.ReadTail? ==> s.deq < s.enq)
    && (c.Fetch? || c.Release? || c.Advance? ==> Published(s, s.deq))
    && (c.Fetch? ==> |c.out| <= MSG_MAX && c.out == s.slots[At(s, s.deq)].text[..|c.out|])
    && (c.Release? || c.Advance? ==> c.got == s.claimed[s.deq])
  }

  ghost predicate Exclusive(s: State) {
    forall p, q, t :: p in s.producers && q in s.producers && Holds(s.producers[p], t) && Holds(s.producers[q], t) ==> p == q
  }

  ghost predicate SlotsOk(s: State)
    requires Shape(s) && |s.claimed| == s.enq
  {
    forall t :: s.deq <= t < s.deq + s.cap ==> SlotOk(s, t)
  }

  ghost predicate ProducersOk(s: State, except: set<nat>)
    requires Shape(s) && |s.claimed| == s.enq
  {
    forall p :: p in s.producers && p !in except ==> ProducerOk(s, s.producers[p])
  }

  ghost predicate Inv(s: State) {
    InvBut(s, {})
  }

  /** The invariant, with the local claims of some producers set aside. */
  ghost predicate InvBut(s: State, except: set<nat>) {
    && Shape(s) && s.cap < WORD
    && s.deq <= s.enq <= s.deq + s.cap
    && |s.claimed| == s.enq
    && s.popped == s.claimed[..s.deq]
    && SlotsOk(s)
    && ProducersOk(s, except)
    && Exclusive(s)
    && ConsumerOk(s)
    && s.attempted == s.enq + s.dropped + |PreClaims(s.producers)|
  }

  // ----- the invariant is inductive -----

  /** Two tickets less than a lap apart never share a slot. */
  lemma {:induction false} LapInjective(cap: nat, t: nat, u: nat)
    requires cap > 0 && t < u < t + cap
    ensures Lap(cap, t) != Lap(cap, u)
  {
    if t >= cap {
      LapInjective(cap, t - cap, u - cap);
    } else if u >= cap {
      assert Lap(cap, u) == Lap(cap, u - cap) == u - cap < t;
    }
  }

  lemma OthersDiffer(s: State, pos: nat)
    requires s.cap > 0 && s.deq <= pos < s.deq + s.cap
    ensures forall t :: s.deq <= t < s.deq + s.cap && t != pos ==> At(s, t) != At(s, pos)
  {
    forall t | s.deq <= t < s.deq + s.cap && t != pos
      ensures At(s, t) != At(s, pos)
    {
      if t < pos { LapInjective(s.cap, t, pos); } else { LapInjective(s.cap, pos, t); }
    }
  }

  /** Two states with the same tickets held and the same ring agree on every slot. */
  lemma SlotsFrame(s: State, s': State)
    requires Shape(s) && |s.claimed| == s.enq && SlotsOk(s)
    requires Shape(s') && s'.cap == s.cap && s'.slots == s.slots
    requires s'.enq == s.enq && s'.deq == s.deq && s'.claimed == s.claimed
    requires s.consumer.Advance? == s'.consumer.Advance?
    requires forall t :: Held(s.producers, t) == Held(s'.producers, t)
    ensures SlotsOk(s')
  {
    forall t | s'.deq <= t < s'.deq + s'.cap ensures SlotOk(s', t) {
      assert SlotOk(s, t);
    }
  }

  lemma HeldFrame(ps: map<nat, Producer>, p: nat, pc: Producer)
    requires forall t :: Holds(pc, t) <==> p in ps && Holds(ps[p], t)
    ensures forall t :: Held(ps, t) == Held(ps[p := pc], t)
  {
    forall t ensures Held(ps, t) == Held(ps[p := pc], t) {
      if Held(ps, t) {
        var q :| q in ps && Holds(ps[q], t);
        assert Holds(ps[p := pc][q], t);
      }
    }
  }

  /** Moving one producer without touching the ring or its hold on a ticket. */
  lemma QuietStep(s: State, p: nat, pc: Producer)
    requires InvBut(s, {p}) && p in s.producers
    requires Owner(pc) == Owner(s.producers[p]) && (Owner(pc) ==> pc.pos == s.producers[p].pos)
    requires PreClaim(pc) == PreClaim(s.producers[p])
    requires ProducerOk(s, pc)
    ensures Inv(SetProducer(s, p, pc))
  {
    var s' := SetProducer(s, p, pc);
    HeldFrame(s.producers, p, pc);
    SlotsFrame(s, s');
    assert PreClaims(s'.producers) == PreClaims(s.producers);
    forall q | q in s'.producers ensures ProducerOk(s', s'.producers[q]) {
      assert q != p ==> ProducerOk(s, s.producers[q]);
    }
  }

  /** A call enters (Begin, Refuse) before any claim. */
  lemma EnterStep(s: State, p: nat, pc: Producer)
    requires Inv(s) && p !in s.producers && PreClaim(pc) && !pc.LoadHead? && !pc.Cas?
    requires pc.LoadTail? ==> GoodEntry(pc.e)
    ensures Inv(SetProducer(s, p, pc).(attempted := s.attempted + 1))
  {
    var s' := SetProducer(s, p, pc).(attempted := s.attempted + 1);
    assert !Owner(pc);
    HeldFrame(s.producers, p, pc);
    SlotsFrame(s, s');
    forall q | q in s'.producers ensures ProducerOk(s', s'.producers[q]) {
      assert q != p ==> ProducerOk(s, s.producers[q]);
    }
    assert PreClaims(s'.producers) == PreClaims(s.producers) + {p};
  }

  /** A refused call leaves and is counted. */
  lemma DropStep(s: State, p: nat)
    requires Inv(s) && p in s.producers && s.producers[p].Dropping?
    ensures Inv(EndProducer(s, p).(dropped := s.dropped + 1))
  {
    var s' := EndProducer(s, p).(dropped := s.dropped + 1);
    forall t ensures Held(s.producers, t) == Held(s'.producers, t) {
      if Held(s.producers, t) {
        var q :| q in s.producers && Holds(s.producers[q], t);
        assert Holds(s'.producers[q], t);
      }
    }
    SlotsFrame(s, s');
    assert PreClaims(s'.producers) == PreClaims(s.producers) - {p};
  }

  /** Winning the CAS: the slot of the new ticket is free and in the window. */
  lemma ClaimStep(s: State, p: nat)
    requires Inv(s) && p in s.producers && s.producers[p].Cas? && s.producers[p].pos == s.enq
    ensures Inv(ApplyProducer(s, p, false))
  {
    var pos, e := s.enq, s.producers[p].e;
    var s' := ApplyProducer(s, p, false);
    assert Holds(s'.producers[p], pos);
    forall t ensures Held(s'.producers, t) == (Held(s.producers, t) || t == pos) {
      if Held(s.producers, t) {
        var q :| q in s.producers && Holds(s.producers[q], t);
        assert Holds(s'.producers[q], t);
      }
      if Held(s'.producers, t) && t != pos {
        var q :| q in s'.producers && Holds(s'.producers[q], t);
        assert Holds(s.producers[q], t);
      }
    }
    forall t | s'.deq <= t < s'.deq + s'.cap ensures SlotOk(s', t) {
      assert SlotOk(s, t);
    }
    assert PreClaims(s'.producers) == PreClaims(s.producers) - {p};
  }

  /** A terminated buffer reads back as what was written before the terminator. */
  lemma {:induction false} TerminatedText(buf: seq<char>, line: string)
    requires |line| < |buf| && buf[..|line|] == line && buf[|line|] == '\0' && '\0' !in line
    ensures CStr(buf) == line
  {
    if line != [] {
      assert buf[0] == buf[..|line|][0] == line[0];
      assert line[0] in line;
      assert buf[1..][..|line[1..]|] == buf[..|line|][1..] == line[1..];
      TerminatedText(buf[1..], line[1..]);
    }
  }

  /** Nobody but its holder depends on the text of a held slot. */
  lemma WriteFrame(s: State, p: nat, slot: Slot)
    requires Inv(s) && p in s.producers && Owner(s.producers[p])
    requires var pos := s.producers[p].pos; slot.seqno == s.slots[At(s, pos)].seqno && |slot.text| == MSG_MAX
    ensures InvBut(SetSlot(s, s.producers[p].pos, slot), {p})
  {
    var pos := s.producers[p].pos;
    var s' := SetSlot(s, pos, slot);
    assert Holds(s.producers[p], pos) && ProducerOk(s, s.producers[p]);
    OthersDiffer(s, pos);
    forall t | s'.deq <= t < s'.deq + s'.cap ensures SlotOk(s', t) {
      assert SlotOk(s, t);
    }
    forall q | q in s.producers && q != p ensures ProducerOk(s', s.producers[q]) {
      OtherHolder(s, p, q);
    }
  }

  /** Another producer that holds a ticket holds a different one. */
  lemma OtherHolder(s: State, p: nat, q: nat)
    requires Inv(s) && p in s.producers && q in s.producers && p != q
    requires Owner(s.producers[p])
    ensures ProducerOk(s, s.producers[q])
    ensures Owner(s.producers[q]) ==> s.producers[q].pos != s.producers[p].pos
  {
    assert Holds(s.producers[p], s.producers[p].pos);
    assert Owner(s.producers[q]) ==> Holds(s.producers[q], s.producers[q].pos);
  }

  /** Publishing turns a held ticket into a published one. */
  lemma PublishStep(s: State, p: nat)
    requires Inv(s) && p in s.producers && s.producers[p].Publish?
    ensures Inv(ApplyProducer(s, p, false))
  {
    var pos := s.producers[p].pos;
    var s' := ApplyProducer(s, p, false);
    assert Holds(s.producers[p], pos) && ProducerOk(s, s.producers[p]);
    OthersDiffer(s, pos);
    forall t ensures Held(s'.producers, t) == (Held(s.producers, t) && t != pos) {
      if Held(s.producers, t) {
        var q :| q in s.producers && Holds(s.producers[q], t);
        assert t != pos ==> Holds(s'.producers[q], t);
      }
      if Held(s'.producers, t) {
        var q :| q in s'.producers && Holds(s'.producers[q], t);
        OtherHolder(s, p, q);
      }
    }
    forall t | s'.deq <= t < s'.deq + s'.cap ensures SlotOk(s', t) {
      assert SlotOk(s, t);
    }
    forall q | q in s'.producers ensures ProducerOk(s', s'.producers[q]) {
      OtherHolder(s, p, q);
    }
    assert PreClaims(s'.producers) == PreClaims(s.producers);
  }

  lemma CopyStep(s: State, p: nat)
    requires Inv(s) && p in s.producers && (s.producers[p].Copy? || s.producers[p].Seal?)
    ensures Inv(ApplyProducer(s, p, false))
  {
    var pc := s.producers[p];
    assert ProducerOk(s, pc);
    var slot := s.slots[At(s, pc.pos)];
    if pc.Seal? {
      var slot' := slot.(text := slot.text[|pc.e.text| := '\0'], level := pc.e.level);
      assert slot'.text[..|pc.e.text|] == slot.text[..|pc.e.text|];
      TerminatedText(slot'.text, pc.e.text);
      WriteFrame(s, p, slot');
      QuietStep(SetSlot(s, pc.pos, slot'), p, Publish(pc.e, pc.pos));
    } else if pc.i < |pc.e.text| {
      var slot' := slot.(text := slot.text[pc.i := pc.e.text[pc.i]]);
      assert slot'.text[..pc.i + 1] == slot.text[..pc.i] + [pc.e.text[pc.i]] == pc.e.text[..pc.i + 1];
      WriteFrame(s, p, slot');
      QuietStep(SetSlot(s, pc.pos, slot'), p, Copy(pc.e, pc.pos, pc.i + 1));
    } else {
      assert pc.e.text[..pc.i] == pc.e.text;
      QuietStep(s, p, Seal(pc.e, pc.pos));
    }
  }

  /** The full test, with its unsigned subtraction, never lets a producer run a lap ahead. */
  lemma NotFull(pos: nat, deq: nat, cap: nat)
    requires 0 < cap < WORD && pos <= deq + cap
    ensures Sub64(pos, deq) < cap ==> pos < deq + cap
  {
    assert cap % WORD == cap;
  }

  /** Before the claim. */
  lemma SeekStep(s: State, p: nat, spurious: bool)
    requires Inv(s) && p in s.producers && PreClaim(s.producers[p])
    ensures Inv(ApplyProducer(s, p, spurious))
  {
    var pc := s.producers[p];
    assert ProducerOk(s, pc);
    match pc
    case LoadTail(e) => QuietStep(s, p, LoadHead(e, s.enq));
    case LoadHead(e, pos) =>
      NotFull(pos, s.deq, s.cap);
      QuietStep(s, p, if Sub64(pos, s.deq) >= s.cap then Dropping else Cas(e, pos));
    case Cas(e, pos) =>
      if s.enq == pos && !spurious { ClaimStep(s, p); } else { QuietStep(s, p, LoadTail(e)); }
    case Dropping => DropStep(s, p);
  }

  /** Between the claim and the first byte. */
  lemma SpinStep(s: State, p: nat)
    requires Inv(s) && p in s.producers && (s.producers[p].Spin? || s.producers[p].Recheck?)
    ensures Inv(ApplyProducer(s, p, false))
  {
    var pc := s.producers[p];
    assert ProducerOk(s, pc);
    SeqIsTicket(s, p);
    QuietStep(s, p, if pc.Spin? then Recheck(pc.e, pc.pos) else Copy(pc.e, pc.pos, 0));
  }

  lemma ProducerStep(s: State, p: nat, spurious: bool)
    requires Inv(s) && p in s.producers
    ensures Inv(ApplyProducer(s, p, spurious))
  {
    var pc := s.producers[p];
    assert ProducerOk(s, pc);
    if PreClaim(pc) { SeekStep(s, p, spurious); }
    else if pc.Spin? || pc.Recheck? { SpinStep(s, p); }
    else if pc.Publish? { PublishStep(s, p); }
    else { CopyStep(s, p); }
  }

  /** A producer that won a ticket finds its slot's seq equal to the ticket. */
  lemma SeqIsTicket(s: State, p: nat)
    requires Inv(s) && p in s.producers && Owner(s.producers[p])
    ensures s.slots[At(s, s.producers[p].pos)].seqno == s.producers[p].pos
  {
    var pos := s.producers[p].pos;
    assert ProducerOk(s, s.producers[p]) && Holds(s.producers[p], pos);
    assert SlotOk(s, pos);
  }

  /** The consumer moves on without changing the ring. */
  lemma LookFrame(s: State, c: Consumer)
    requires Inv(s) && !s.consumer.Advance? && !c.Advance?
    requires ConsumerOk(s.(consumer := c))
    ensures Inv(s.(consumer := c))
  {
    var s' := s.(consumer := c);
    SlotsFrame(s, s');
    forall q | q in s'.producers ensures ProducerOk(s', s'.producers[q]) {
      assert ProducerOk(s, s.producers[q]);
    }
  }

  lemma LookStep(s: State)
    requires Inv(s) && !s.consumer.Release? && !s.consumer.Advance?
    ensures Inv(ApplyConsumer(s))
  {
    assert SlotOk(s, s.deq);
    if s.consumer.Fetch? && |s.consumer.out| == MSG_MAX {
      assert s.slots[At(s, s.deq)].text[..MSG_MAX] == s.slots[At(s, s.deq)].text;
    }
    LookFrame(s, ApplyConsumer(s).consumer);
  }

  lemma ReleaseStep(s: State)
    requires Inv(s) && s.consumer.Release?
    ensures Inv(ApplyConsumer(s))
  {
    var s' := ApplyConsumer(s);
    OthersDiffer(s, s.deq);
    forall t | s'.deq <= t < s'.deq + s'.cap ensures SlotOk(s', t) {
      assert SlotOk(s, t);
    }
    forall q | q in s'.producers ensures ProducerOk(s', s'.producers[q]) {
      assert ProducerOk(s, s.producers[q]);
      assert Owner(s.producers[q]) ==> Holds(s.producers[q], s.producers[q].pos);
    }
  }

  /** Advancing the head: the freed slot is the slot of the ticket one lap on. */
  lemma AdvanceStep(s: State)
    requires Inv(s) && s.consumer.Advance?
    ensures Inv(ApplyConsumer(s))
  {
    var s' := ApplyConsumer(s);
    forall t | s'.deq <= t < s'.deq + s'.cap ensures SlotOk(s', t) {
      if t == s.deq + s.cap {
        assert At(s, t) == At(s, s.deq);
        assert SlotOk(s, s.deq);
        assert t >= s.enq;
      } else {
        assert SlotOk(s, t);
      }
    }
    forall q | q in s'.producers ensures ProducerOk(s', s'.producers[q]) {
      assert ProducerOk(s, s.producers[q]);
      assert Owner(s.producers[q]) ==> Holds(s.producers[q], s.producers[q].pos);
    }
  }

  lemma InvInit(s: State)
    requires Init(s)
    ensures Inv(s)
  {
    forall t | s.deq <= t < s.deq + s.cap ensures SlotOk(s, t) {
      assert s.slots[At(s, t)].seqno == t;
    }
  }

  lemma InvStep(s: State, a: Action)
    requires Inv(s) && Enabled(s, a)
    ensures Inv(Apply(s, a))
  {
    match a
    case Refuse(p) => EnterStep(s, p, Dropping);
    case Skip =>
    case Begin(p, line, level) => EnterStep(s, p, LoadTail(Entry(Fit(line), level)));
    case Produce(p, spurious) => ProducerStep(s, p, spurious);
    case Consume =>
      if s.consumer.Release? { ReleaseStep(s); }
      else if s.consumer.Advance? { AdvanceStep(s); }
      else { LookStep(s); }
  }

  // ----- runs -----

  /** From s, the actions can be taken one after the other and lead to s'. */
  ghost predicate Run(s: State, acts: seq<Action>, s': State)
    decreases |acts|
  {
    if acts == [] then s' == s
    else Shape(s) && Enabled(s, acts[0]) && Run(Apply(s, acts[0]), acts[1..], s')
  }

  lemma {:induction false} InvRun(s: State, acts: seq<Action>, s': State)
    requires Inv(s) && Run(s, acts, s')
    ensures Inv(s')
    decreases |acts|
  {
    if acts != [] {
      InvStep(s, acts[0]);
      InvRun(Apply(s, acts[0]), acts[1..], s');
    }
  }

  /** Occupancy: the tail never runs more than a lap ahead of the head. */
  lemma Bounded(s0: State, acts: seq<Action>, s: State)
    requires Init(s0) && Run(s0, acts, s)
    ensures s.deq <= s.enq <= s.deq + s.cap
  {
    InvInit(s0);
    InvRun(s0, acts, s);
  }

  /** Exactly once, in ticket order: what was popped is a prefix of what was accepted. */
  lemma PoppedInTicketOrder(s0: State, acts: seq<Action>, s: State)
    requires Init(s0) && Run(s0, acts, s)
    ensures s.deq <= s.enq == |s.claimed| && s.popped == s.claimed[..s.deq]
  {
    InvInit(s0);
    InvRun(s0, acts, s);
  }

  /** The spin-timeout branch is dead: a ticket holder always reads its own ticket. */
  lemma SpinNeverTimesOut(s0: State, acts: seq<Action>, s: State, p: nat)
    requires Init(s0) && Run(s0, acts, s)
    requires p in s.producers && Owner(s.producers[p])
    ensures Shape(s) && s.slots[At(s, s.producers[p].pos)].seqno == s.producers[p].pos
    ensures !s.producers[p].TimedOut?
  {
    InvInit(s0);
    InvRun(s0, acts, s);
    SeqIsTicket(s, p);
    assert ProducerOk(s, s.producers[p]);
  }

  /** The slot text a thread is about to touch. */
  predicate WritesAt(s: State, p: nat, i: nat)
    requires s.cap > 0
  {
    p in s.producers && (s.producers[p].Copy? || s.producers[p].Seal?) && At(s, s.producers[p].pos) == i
  }

  predicate ReadsAt(s: State, i: nat)
    requires s.cap > 0
  {
    s.consumer.Fetch? && At(s, s.consumer.pos) == i
  }

  lemma TextApart(s: State, i: nat, p: nat)
    requires Inv(s) && WritesAt(s, p, i)
    ensures !ReadsAt(s, i) && forall q :: WritesAt(s, q, i) ==> q == p
  {
    var pos := s.producers[p].pos;
    assert Holds(s.producers[p], pos) && ProducerOk(s, s.producers[p]);
    OthersDiffer(s, pos);
    forall q | WritesAt(s, q, i) ensures q == p {
      if q != p { OtherHolder(s, p, q); }
    }
  }

  /** No slot's text is touched by a writer and any other thread at once. */
  lemma NoTextRace(s0: State, acts: seq<Action>, s: State, i: nat, p: nat)
    requires Init(s0) && Run(s0, acts, s)
    ensures s.cap > 0
    ensures WritesAt(s, p, i) ==> !ReadsAt(s, i) && forall q :: WritesAt(s, q, i) ==> q == p
  {
    InvInit(s0);
    InvRun(s0, acts, s);
    if WritesAt(s, p, i) { TextApart(s, i, p); }
  }

  /** Conservation: with no call in progress, every counted push was popped, is pending, or was dropped. */
  lemma Conservation(s0: State, acts: seq<Action>, s: State)
    requires Init(s0) && Run(s0, acts, s)
    requires s.producers == map[]
    ensures s.attempted == |s.popped| + (s.enq - s.deq) + s.dropped
    ensures s.consumer.Idle? ==> Shape(s) && |s.claimed| == s.enq && forall t :: s.deq <= t < s.enq ==>
              s.slots[At(s, t)].seqno == t + 1 && Stored(s.slots[At(s, t)]) == s.claimed[t]
  {
    InvInit(s0);
    InvRun(s0, acts, s);
    assert PreClaims(s.producers) == {};
    forall t | s.deq <= t < s.enq && s.consumer.Idle?
      ensures s.slots[At(s, t)].seqno == t + 1 && Stored(s.slots[At(s, t)]) == s.claimed[t]
    {
      assert SlotOk(s, t);
    }
  }

  // ----- provenance -----

  /** The entries a run was asked to log. */
  function Offers(acts: seq<Action>): set<Entry> {
    set k | 0 <= k < |acts| && acts[k].Begin? :: Entry(Fit(acts[k].line), acts[k].level)
  }

  ghost predicate DrawnFrom(s: State, offers: set<Entry>) {
    && (forall e :: e in s.claimed ==> e in offers)
    && (forall p :: p in s.producers && !s.producers[p].Dropping? ==> s.producers[p].e in offers)
  }

  lemma DrawnStep(s: State, a: Action, offers: set<Entry>)
    requires Shape(s) && Enabled(s, a) && DrawnFrom(s, offers)
    requires a.Begin? ==> Entry(Fit(a.line), a.level) in offers
    ensures DrawnFrom(Apply(s, a), offers)
  {
    var s' := Apply(s, a);
    if a.Produce? {
      var pc := s.producers[a.p];
      assert s'.claimed == s.claimed || (pc.Cas? && s'.claimed == s.claimed + [pc.e]);
      assert forall q :: q in s'.producers && q != a.p ==> q in s.producers && s'.producers[q] == s.producers[q];
      assert a.p in s'.producers ==> s'.producers[a.p].Dropping? || s'.producers[a.p].e == pc.e;
    }
  }

  lemma {:induction false} DrawnRun(s: State, acts: seq<Action>, s': State, offers: set<Entry>)
    requires DrawnFrom(s, offers) && Run(s, acts, s') && Offers(acts) <= offers
    ensures DrawnFrom(s', offers)
    decreases |acts|
  {
    if acts != [] {
      assert acts[0].Begin? ==> Entry(Fit(acts[0].line), acts[0].level) in Offers(acts);
      DrawnStep(s, acts[0], offers);
      assert forall e :: e in Offers(acts[1..]) ==> e in Offers(acts) by {
        forall k | 0 <= k < |acts[1..]| && acts[1..][k].Begin?
          ensures Entry(Fit(acts[1..][k].line), acts[1..][k].level) in Offers(acts)
        {
          assert acts[1..][k] == acts[k + 1];
        }
      }
      DrawnRun(Apply(s, acts[0]), acts[1..], s', offers);
    }
  }

  /** Every popped line is, truncated to the slot size, a line some producer pushed. */
  lemma PoppedWasPushed(s0: State, acts: seq<Action>, s: State)
    requires Init(s0) && Run(s0, acts, s)
    ensures forall e :: e in s.popped ==> e in Offers(acts)
  {
    DrawnRun(s0, acts, s, Offers(acts));
    PoppedInTicketOrder(s0, acts, s);
  }
}
