/**
 The log ring of src/log/nv_log.c used by calls that do not overlap, under all
 three overflow policies: the ring refines a bounded queue, and OVERWRITE keeps
 the newest lines. Also the sizing of the ring and its mask arithmetic.
 */
module LogQueue {
  import opened LogRing
  import opened Powers

  const QUEUE_MIN: nat := 64
  const QUEUE_MAX: nat := 65536

  datatype Policy = Drop | Block | Overwrite

  datatype Option<+T> = None | Some(value: T)

  // ----- capacity and mask -----

  ghost predicate IsPow2(n: nat) {
    exists k :: Pow2(k) == n
  }

  /** Masking with a power of two minus one is the slot number. */
  lemma {:induction false} Masks(k: nat, pos: nat)
    ensures And(pos, Pow2(k) - 1) == Lap(Pow2(k), pos)
  {
    if k == 0 {
      LapOne(pos);
    } else {
      var h := Pow2(k - 1);
      assert Pow2(k) - 1 == 2 * (h - 1) + 1;
      LapHalf(h, pos);
      if pos == 0 {
      } else {
        Masks(k - 1, pos / 2);
        assert And(pos, Pow2(k) - 1) == 2 * And(pos / 2, h - 1) + pos % 2;
      }
    }
  }

  lemma {:induction false} LapOne(pos: nat)
    ensures Lap(1, pos) == 0
  {
    if pos > 0 { LapOne(pos - 1); }
  }

  lemma {:induction false} LapHalf(h: nat, pos: nat)
    requires h > 0
    ensures Lap(2 * h, pos) == 2 * Lap(h, pos / 2) + pos % 2
  {
    if pos >= 2 * h { LapHalf(h, pos - 2 * h); }
  }

  lemma Sizes()
    ensures Pow2(6) == QUEUE_MIN && Pow2(16) == QUEUE_MAX
  {
    assert Pow2(3) == 8;
    assert Pow2(6) == 8 * Pow2(3);
    assert Pow2(9) == 8 * Pow2(6);
    assert Pow2(12) == 8 * Pow2(9);
    assert Pow2(15) == 8 * Pow2(12);
  }

  /** nv_log_round_pow2: the least allowed power of two that is large enough. */
  method RoundPow2(n: nat) returns (p: nat)
    ensures IsPow2(p) && QUEUE_MIN <= p <= QUEUE_MAX
    ensures p >= n || p == QUEUE_MAX
    ensures p == QUEUE_MIN || p / 2 < n
  {
    Sizes();
    p := QUEUE_MIN;
    if n >= QUEUE_MAX {
      assert Pow2(16) == QUEUE_MAX;
      return QUEUE_MAX;
    }
    ghost var k := 6;
    while p < n
      invariant 6 <= k <= 16 && p == Pow2(k)
      invariant QUEUE_MIN <= p <= QUEUE_MAX && (p == QUEUE_MIN || p / 2 < n)
      decreases 16 - k
    {
      if k == 16 { assert false; }
      p := 2 * p;
      k := k + 1;
      Pow2Monotone(k, 16);
    }
  }

  // ----- the bounded queue that the ring refines -----

  datatype Queue = Queue(cap: nat, items: seq<Entry>, dropped: nat)

  function PushTo(q: Queue, policy: Policy, e: Entry): Queue {
    if |q.items| < q.cap then q.(items := q.items + [e])
    else if policy.Overwrite? && q.items != [] then q.(items := q.items[1..] + [e], dropped := q.dropped + 1)
    else q.(dropped := q.dropped + 1)
  }

  function PopFrom(q: Queue): Queue {
    if q.items == [] then q else q.(items := q.items[1..])
  }

  /** Between calls every slot in the window is free or published. */
  ghost predicate Window(cap: nat, slots: seq<Slot>, enq: nat, deq: nat) {
    && 0 < cap == |slots| && deq <= enq <= deq + cap
    && (forall t :: deq <= t < deq + cap ==> slots[Lap(cap, t)].seqno == if t < enq then t + 1 else t)
    && (forall i :: 0 <= i < cap ==> |slots[i].text| == MSG_MAX)
  }

  /** The lines between head and tail, oldest first. */
  ghost function Items(cap: nat, slots: seq<Slot>, enq: nat, deq: nat): (r: seq<Entry>)
    requires 0 < cap == |slots| && deq <= enq
    ensures |r| == enq - deq
  {
    seq(enq - deq, i requires 0 <= i < enq - deq => Stored(slots[Lap(cap, deq + i)]))
  }

  lemma LapOthers(cap: nat, deq: nat, pos: nat)
    requires cap > 0 && deq <= pos < deq + cap
    ensures forall t :: deq <= t < deq + cap && t != pos ==> Lap(cap, t) != Lap(cap, pos)
  {
    forall t | deq <= t < deq + cap && t != pos ensures Lap(cap, t) != Lap(cap, pos) {
      if t < pos { LapInjective(cap, t, pos); } else { LapInjective(cap, pos, t); }
    }
  }

  /** Releasing the head slot and advancing removes exactly the oldest line. */
  lemma ReleaseHead(cap: nat, slots: seq<Slot>, enq: nat, deq: nat)
    requires Window(cap, slots, enq, deq) && deq < enq
    ensures var i := Lap(cap, deq);
            var slots' := slots[i := slots[i].(seqno := deq + cap)];
            && Window(cap, slots', enq, deq + 1)
            && Items(cap, slots', enq, deq + 1) == Items(cap, slots, enq, deq)[1..]
  {
    LapOthers(cap, deq, deq);
    var i := Lap(cap, deq);
    var slots' := slots[i := slots[i].(seqno := deq + cap)];
    assert Lap(cap, deq + cap) == i;
  }

  /** Writing and publishing the tail slot adds exactly one line at the end. */
  lemma PublishTail(cap: nat, slots: seq<Slot>, enq: nat, deq: nat, slot: Slot)
    requires Window(cap, slots, enq, deq) && enq < deq + cap
    requires slot.seqno == enq + 1 && |slot.text| == MSG_MAX
    ensures var slots' := slots[Lap(cap, enq) := slot];
            && Window(cap, slots', enq + 1, deq)
            && Items(cap, slots', enq + 1, deq) == Items(cap, slots, enq, deq) + [Stored(slot)]
  {
    LapOthers(cap, deq, enq);
  }

  ghost predicate Written(slot: Slot, pos: nat, text: Line, level: int) {
    && slot.seqno == pos + 1 && slot.level == level && |slot.text| == MSG_MAX
    && slot.text[..|text|] == text && slot.text[|text|] == '\0'
  }

  /** One global ring, with the fields of nv_log_ring_t. */
  class Ring {
    const slots: array<Slot>
    const capacity: nat
    const mask: nat
    const policy: Policy
    ghost const bits: nat
    var enqueuePos: nat
    var dequeuePos: nat
    var dropped: nat
    var ready: bool

    ghost predicate Valid()
      reads this, slots
    {
      && capacity == Pow2(bits) && capacity < WORD && mask == capacity - 1
      && Window(capacity, slots[..], enqueuePos, dequeuePos)
    }

    ghost function Contents(): seq<Entry>
      requires Valid()
      reads this, slots
    {
      Items(capacity, slots[..], enqueuePos, dequeuePos)
    }

    ghost function View(): Queue
      requires Valid()
      reads this, slots
    {
      Queue(capacity, Contents(), dropped)
    }

    /** nv_log_ring_init: slot i starts with seq i. */
    constructor (requested: nat, policy: Policy)
      ensures Valid() && View() == Queue(capacity, [], 0) && ready
      ensures this.policy == policy && QUEUE_MIN <= capacity <= QUEUE_MAX && fresh(slots)
      ensures IsPow2(capacity) && (capacity >= requested || capacity == QUEUE_MAX) && (capacity == QUEUE_MIN || capacity / 2 < requested)
    {
      var cap := RoundPow2(requested);
      ghost var k: nat :| Pow2(k) == cap;
      bits := k;
      capacity := cap;
      mask := cap - 1;
      this.policy := policy;
      slots := new Slot[cap](i => Slot(if i < 0 then 0 else i, 0, seq(MSG_MAX, _ => '\0')));
      enqueuePos, dequeuePos, dropped, ready := 0, 0, 0, true;
      new;
      assert forall t :: 0 <= t < cap ==> Lap(cap, t) == t;
    }

    /** Hand the head slot to the producers of the next lap. */
    method ReleaseOldest()
      requires Valid() && Contents() != []
      modifies slots, this`dequeuePos
      ensures Valid() && Contents() == old(Contents())[1..]
    {
      var pos := dequeuePos;
      Masks(bits, pos);
      ReleaseHead(capacity, slots[..], enqueuePos, dequeuePos);
      var i := And(pos, mask);
      ghost var before := slots[..];
      slots[i] := slots[i].(seqno := pos + capacity);
      dequeuePos := pos + 1;
      assert slots[..] == before[i := before[i].(seqno := pos + capacity)];
    }

    /** nv_log_ring_pop. */
    method Pop() returns (out: Option<Entry>)
      requires Valid()
      modifies slots, this`dequeuePos
      ensures Valid() && View() == PopFrom(old(View()))
      ensures out == if old(Contents()) == [] then None else Some(old(Contents())[0])
    {
      var pos := dequeuePos;
      var tail := enqueuePos;
      if pos >= tail { return None; }
      Masks(bits, pos);
      var i := And(pos, mask);
      assert slots[..][Lap(capacity, pos)].seqno == pos + 1;
      if slots[i].seqno != pos + 1 { return None; }
      out := Some(Stored(slots[i]));
      ReleaseOldest();
    }

    /** The retry loop of a push: evict, refuse or go on. The weak compare-exchange may fail without cause, `lost` times. */
    method MakeRoom(lost: nat) returns (room: bool)
      requires Valid()
      modifies slots, this`dequeuePos, this`dropped
      ensures Valid()
      ensures room == (|old(Contents())| < capacity || policy.Overwrite?)
      ensures room ==> |Contents()| < capacity
      ensures View() == (if |old(Contents())| < capacity then old(View())
                         else (if room then PopFrom(old(View())) else old(View())).(dropped := old(dropped) + 1))
    {
      var pos := enqueuePos;
      var head := dequeuePos;
      var left := lost;
      assert capacity % WORD == capacity;
      while Sub64(pos, head) >= capacity
        invariant Valid() && pos == enqueuePos && head == dequeuePos
        invariant View() == old(View()) ||
                  (policy.Overwrite? && |old(Contents())| == capacity && |Contents()| < capacity
                   && View() == PopFrom(old(View())).(dropped := old(dropped) + 1))
        decreases pos - head, left
      {
        if policy.Drop? || policy.Block? {
          dropped := dropped + 1;
          return false;
        }
        if left > 0 {
          left := left - 1;
          continue;
        }
        ReleaseOldest();
        dropped := dropped + 1;
        pos := enqueuePos;
        head := dequeuePos;
      }
      return true;
    }

    /** The rest of a push once ticket pos is claimed: wait for the slot, fill it, publish it. */
    method Fill(pos: nat, text: Line, level: int) returns (ok: bool)
      requires capacity == Pow2(bits) == slots.Length && mask == capacity - 1
      requires forall i :: 0 <= i < slots.Length ==> |slots[i].text| == MSG_MAX
      modifies slots, this`dropped
      ensures ok == (old(slots[Lap(capacity, pos)].seqno) == pos)
      ensures !ok ==> dropped == old(dropped) + 1 && slots[..] == old(slots[..])
      ensures ok ==> dropped == old(dropped)
      ensures ok ==> exists slot :: Written(slot, pos, text, level) && slots[..] == old(slots[..])[Lap(capacity, pos) := slot]
    {
      Masks(bits, pos);
      var i := And(pos, mask);
      var spins := 0;
      while spins < SPIN_LIMIT && slots[i].seqno != pos {
        spins := spins + 1;
      }
      if slots[i].seqno != pos {
        dropped := dropped + 1;
        return false;
      }
      var buf := text + ['\0'] + slots[i].text[|text| + 1..];
      assert buf[..|text|] == text;
      slots[i] := slots[i].(text := buf, level := level);
      slots[i] := slots[i].(seqno := pos + 1);
      assert Written(slots[i], pos, text, level);
      return true;
    }

    /** Claim the next ticket and publish a line under it. */
    method Append(text: Line, level: int) returns (ok: bool)
      requires Valid() && |Contents()| < capacity && '\0' !in text
      modifies slots, this`enqueuePos, this`dropped
      ensures ok && Valid() && dropped == old(dropped) && Contents() == old(Contents()) + [Entry(text, level)]
    {
      var pos := enqueuePos;
      ghost var before := slots[..];
      assert before[Lap(capacity, pos)].seqno == pos;
      enqueuePos := pos + 1;
      ok := Fill(pos, text, level);
      ghost var slot :| Written(slot, pos, text, level) && slots[..] == before[Lap(capacity, pos) := slot];
      TerminatedText(slot.text, text);
      PublishTail(capacity, before, pos, dequeuePos, slot);
    }

    /** nv_log_ring_push: a missing line or a stopped ring is a drop, an empty line is nothing; failed claims start over. */
    method Push(line: Option<string>, level: int, lostEvictions: nat, lostClaims: nat) returns (ok: bool)
      requires Valid() && (line.Some? ==> '\0' !in line.value)
      modifies slots, this`enqueuePos, this`dequeuePos, this`dropped
      ensures Valid()
      ensures line.None? || !ready ==> !ok && View() == old(View()).(dropped := old(dropped) + 1)
      ensures line == Some([]) && ready ==> ok && View() == old(View())
      ensures line.Some? && line.value != [] && ready ==>
                && View() == PushTo(old(View()), policy, Entry(Fit(line.value), level))
                && (ok <==> |old(Contents())| < capacity || policy.Overwrite?)
    {
      if line.None? || !ready {
        dropped := dropped + 1;
        return false;
      }
      if line.value == [] { return true; }
      var text := Fit(line.value);
      ok := MakeRoom(lostEvictions);
      ghost var made := View();
      var left := lostClaims;
      while ok && left > 0
        invariant Valid() && View() == made && (ok ==> |Contents()| < capacity)
        invariant ok == (|old(Contents())| < capacity || policy.Overwrite?)
      {
        left := left - 1;
        ok := MakeRoom(0);
      }
      if ok {
        ok := Append(text, level);
      }
    }
  }

  // ----- OVERWRITE over whole runs -----

  datatype Op = PushOp(e: Entry) | PopOp

  /** A queue driven by a list of calls, with the lines pushed and the lines popped so far. */
  datatype History = History(q: Queue, pushed: seq<Entry>, popped: seq<Entry>)

  function After(cap: nat, policy: Policy, ops: seq<Op>): History {
    if ops == [] then History(Queue(cap, [], 0), [], [])
    else
      var h := After(cap, policy, ops[..|ops| - 1]);
      match ops[|ops| - 1]
      case PushOp(e) => History(PushTo(h.q, policy, e), h.pushed + [e], h.popped)
      case PopOp =>
        if h.q.items == [] then h
        else History(PopFrom(h.q), h.pushed, h.popped + [h.q.items[0]])
  }

  /** xs can be obtained from ys by deleting elements. */
  ghost predicate Subsequence<T>(xs: seq<T>, ys: seq<T>)
    decreases |ys|
  {
    || xs == []
    || (ys != [] && Subsequence(xs, ys[..|ys| - 1]))
    || (ys != [] && xs[|xs| - 1] == ys[|ys| - 1] && Subsequence(xs[..|xs| - 1], ys[..|ys| - 1]))
  }

  lemma {:induction false} SubsequenceMore<T>(xs: seq<T>, ys: seq<T>, zs: seq<T>)
    requires Subsequence(xs, ys)
    ensures Subsequence(xs, ys + zs)
    decreases |zs|
  {
    if zs == [] {
      assert ys + zs == ys;
    } else {
      SubsequenceMore(xs, ys, zs[..|zs| - 1]);
      assert (ys + zs)[..|ys + zs| - 1] == ys + zs[..|zs| - 1];
    }
  }

  lemma SubsequenceSnoc<T>(xs: seq<T>, ys: seq<T>, x: T)
    requires Subsequence(xs, ys)
    ensures Subsequence(xs + [x], ys + [x])
  {
    assert (xs + [x])[..|xs + [x]| - 1] == xs && (ys + [x])[..|ys + [x]| - 1] == ys;
  }

  /**
   The queue holds the newest lines, in order; what was popped comes from the older ones, in order;
   and every line is popped, held, or counted as dropped.
   */
  ghost predicate KeepsNewest(cap: nat, h: History) {
    && h.q.cap == cap && |h.q.items| <= cap && |h.q.items| <= |h.pushed|
    && h.q.items == h.pushed[|h.pushed| - |h.q.items|..]
    && Subsequence(h.popped, Older(h))
    && |h.popped| + |h.q.items| + h.q.dropped == |h.pushed|
  }

  ghost function Older(h: History): seq<Entry>
    requires |h.q.items| <= |h.pushed|
  {
    h.pushed[..|h.pushed| - |h.q.items|]
  }

  lemma PushKeeps(cap: nat, h: History, e: Entry)
    requires cap > 0 && KeepsNewest(cap, h)
    ensures KeepsNewest(cap, History(PushTo(h.q, Overwrite, e), h.pushed + [e], h.popped))
  {
    var h' := History(PushTo(h.q, Overwrite, e), h.pushed + [e], h.popped);
    if |h.q.items| < cap {
      assert Older(h') == Older(h);
    } else {
      assert Older(h') == Older(h) + [h.q.items[0]];
      SubsequenceMore(h.popped, Older(h), [h.q.items[0]]);
    }
  }

  lemma PopKeeps(cap: nat, h: History)
    requires KeepsNewest(cap, h) && h.q.items != []
    ensures KeepsNewest(cap, History(PopFrom(h.q), h.pushed, h.popped + [h.q.items[0]]))
  {
    var h' := History(PopFrom(h.q), h.pushed, h.popped + [h.q.items[0]]);
    assert Older(h') == Older(h) + [h.q.items[0]];
    SubsequenceSnoc(h.popped, Older(h), h.q.items[0]);
  }

  /** After any list of calls under OVERWRITE. */
  lemma {:induction false} OverwriteKeepsNewest(cap: nat, ops: seq<Op>)
    requires cap > 0
    ensures KeepsNewest(cap, After(cap, Overwrite, ops))
  {
    if ops != [] {
      OverwriteKeepsNewest(cap, ops[..|ops| - 1]);
      var h := After(cap, Overwrite, ops[..|ops| - 1]);
      match ops[|ops| - 1]
      case PushOp(e) => PushKeeps(cap, h, e);
      case PopOp => if h.q.items != [] { PopKeeps(cap, h); }
    }
  }

  // ----- how full the queue is, and what the other policies keep -----

  /** How many lines are held: counting alone, whatever they are. */
  function Level(cap: nat, ops: seq<Op>): nat {
    if ops == [] then 0
    else
      var n := Level(cap, ops[..|ops| - 1]);
      if ops[|ops| - 1].PushOp? then (if n < cap then n + 1 else n) else if n > 0 then n - 1 else 0
  }

  /** The lines pushed while there was room. */
  function Admitted(cap: nat, ops: seq<Op>): seq<Entry> {
    if ops == [] then []
    else
      var before, op := ops[..|ops| - 1], ops[|ops| - 1];
      Admitted(cap, before) + if op.PushOp? && Level(cap, before) < cap then [op.e] else []
  }

  /** Under every policy the queue holds as many lines as fit of what was pushed and not popped. */
  lemma {:induction false} LevelIs(cap: nat, policy: Policy, ops: seq<Op>)
    requires cap > 0
    ensures |After(cap, policy, ops).q.items| == Level(cap, ops) <= cap && After(cap, policy, ops).q.cap == cap
  {
    if ops != [] { LevelIs(cap, policy, ops[..|ops| - 1]); }
  }

  /** Under DROP and BLOCK: what was popped and what is held are, in order, exactly the lines pushed while there was room. */
  lemma {:induction false} RefusingKeepsOldest(cap: nat, policy: Policy, ops: seq<Op>)
    requires cap > 0 && !policy.Overwrite?
    ensures var h := After(cap, policy, ops);
            h.popped + h.q.items == Admitted(cap, ops) && |Admitted(cap, ops)| + h.q.dropped == |h.pushed|
  {
    if ops != [] {
      var before := ops[..|ops| - 1];
      RefusingKeepsOldest(cap, policy, before);
      LevelIs(cap, policy, before);
      var h := After(cap, policy, before);
      match ops[|ops| - 1]
      case PushOp(e) => Joined(h.popped, h.q.items, [e]);
      case PopOp => if h.q.items != [] { Joined(h.popped, [h.q.items[0]], h.q.items[1..]); }
    }
  }

  lemma Joined(a: seq<Entry>, b: seq<Entry>, c: seq<Entry>)
    ensures (a + b) + c == a + (b + c) && a + [] == a
    ensures b != [] ==> [b[0]] + b[1..] == b
  {
  }

  /** Calls with real lines. */
  predicate Playable(ops: seq<Op>) {
    forall op :: op in ops && op.PushOp? ==> op.e.text != [] && '\0' !in op.e.text
  }

  /** A new ring driven by any list of calls does what the queue does; under OVERWRITE it keeps the newest lines. */
  method Play(requested: nat, policy: Policy, ops: seq<Op>) returns (ring: Ring, popped: seq<Entry>)
    requires Playable(ops)
    ensures ring.Valid() && ring.capacity > 0 && ring.View() == After(ring.capacity, policy, ops).q
    ensures (ring.capacity >= requested || ring.capacity == QUEUE_MAX) && (ring.capacity == QUEUE_MIN || ring.capacity / 2 < requested)
    ensures popped == After(ring.capacity, policy, ops).popped
    ensures |ring.Contents()| == Level(ring.capacity, ops)
    ensures if policy.Overwrite? then KeepsNewest(ring.capacity, After(ring.capacity, policy, ops))
            else popped + ring.Contents() == Admitted(ring.capacity, ops)
  {
    ring := new Ring(requested, policy);
    popped := [];
    for i := 0 to |ops|
      invariant fresh(ring) && fresh(ring.slots) && ring.Valid() && ring.ready && ring.policy == policy && ring.capacity >= QUEUE_MIN
      invariant ring.View() == After(ring.capacity, policy, ops[..i]).q && popped == After(ring.capacity, policy, ops[..i]).popped
    {
      assert ops[..i + 1][..i] == ops[..i] && ops[..i + 1][i] == ops[i] && ops[i] in ops;
      if ops[i].PushOp? {
        var ok := ring.Push(Some(ops[i].e.text), ops[i].e.level, 0, 0);
      } else {
        var out := ring.Pop();
        if out.Some? { popped := popped + [out.value]; }
      }
    }
    assert ops[..|ops|] == ops;
    LevelIs(ring.capacity, policy, ops);
    if policy.Overwrite? { OverwriteKeepsNewest(ring.capacity, ops); } else { RefusingKeepsOldest(ring.capacity, policy, ops); }
  }
}
