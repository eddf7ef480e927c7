/**
 Timer scheduling of src/event/nv_loop.c: an intrusive doubly linked list with a
 cached next_timeout, the wait computed from it, and the pass that fires due
 timers while their handlers add new ones. Clock readings are parameters;
 times are unsigned 64-bit milliseconds.
 */
module Timers {

  const WORD: nat := 0x1_0000_0000_0000_0000

  class Timer {
    var expire: nat
    var next: Timer?
    var prev: Timer?
    var armed: bool      // ev->loop is set

    constructor ()
      ensures next == null && prev == null && !armed
    {
      expire, next, prev, armed := 0, null, null, false;
    }
  }

  ghost function NextIn(list: seq<Timer>, i: nat): Timer?
    requires i < |list|
  {
    if i + 1 < |list| then list[i + 1] else null
  }

  ghost function PrevIn(list: seq<Timer>, i: nat): Timer?
    requires i < |list|
  {
    if i > 0 then list[i - 1] else null
  }

  ghost predicate Apart(list: seq<Timer>, i: nat, j: nat)
    requires i < |list| && j < |list|
  {
    list[i] != list[j]
  }

  ghost predicate Distinct(list: seq<Timer>) {
    forall i: nat, j: nat {:trigger Apart(list, i, j)} :: i < j < |list| ==> Apart(list, i, j)
  }

  ghost function Without(list: seq<Timer>, i: nat): seq<Timer>
    requires i < |list|
  {
    list[..i] + list[i + 1..]
  }

  /** Position in the old list of the k-th timer once the i-th is gone. */
  function Old(k: nat, i: nat): nat { if k < i then k else k + 1 }

  lemma WithoutAt(list: seq<Timer>, i: nat)
    requires i < |list| && Distinct(list)
    ensures var r := Without(list, i);
            && |r| == |list| - 1 && Distinct(r) && list[i] !in r
            && (forall k: nat :: k < |r| ==> r[k] == list[Old(k, i)])
  {
    var r := Without(list, i);
    assert forall k: nat :: k < |r| ==> r[k] == list[Old(k, i)];
    forall j: nat, k: nat | j < k < |r| ensures Apart(r, j, k) {
      assert Apart(list, Old(j, i), Old(k, i));
    }
    forall k: nat | k < |r| ensures r[k] != list[i] {
      assert k < i ==> Apart(list, k, i);
      assert k >= i ==> Apart(list, i, k + 1);
    }
  }

  lemma WithoutMembers(list: seq<Timer>, i: nat)
    requires i < |list| && Distinct(list)
    ensures forall t :: t in Without(list, i) <==> t in list && t != list[i]
  {
    forall t | t in list && t != list[i] ensures t in Without(list, i) {
      var k: nat :| k < |list| && list[k] == t;
      assert Without(list, i)[if k < i then k else k - 1] == t;
    }
    assert list[i] !in Without(list, i) by { WithoutAt(list, i); }
  }

  lemma WithoutSecond(pre: seq<Timer>, t: Timer, nx: Timer, post: seq<Timer>)
    ensures var list := pre + [t] + ([nx] + post);
            list[|pre|] == t && list[|pre| + 1] == nx && Without(list, |pre| + 1) == pre + [t] + post
    ensures (pre + [t] + post)[|pre|] == t && Without(pre + [t] + post, |pre|) == pre + post
  {
    assert Without(pre + [t] + ([nx] + post), |pre| + 1) == pre + [t] + post;
    assert Without(pre + [t] + post, |pre|) == pre + post;
  }

  lemma WithoutNeighbours(list: seq<Timer>, i: nat, k: nat)
    requires i < |list| && k < |list| - 1
    ensures var r := Without(list, i);
            && NextIn(r, k) == (if k + 1 == i then NextIn(list, i) else NextIn(list, Old(k, i)))
            && PrevIn(r, k) == (if k == i then PrevIn(list, i) else PrevIn(list, Old(k, i)))
  {
  }

  /** now + timeout_ms */
  function Deadline(now: nat, timeout: nat): nat {
    (now + timeout) % WORD
  }

  /** The running minimum of next_timeout, in which 0 stands for none. */
  function Earlier(current: nat, expire: nat): nat {
    if current == 0 || expire < current then expire else current
  }

  /** Following next from any timer of the sequence comes back to it. */
  ghost predicate Ring(ring: seq<Timer>)
    reads ring`next
  {
    ring != [] && forall k {:trigger ring[k].next} :: 0 <= k < |ring| ==> ring[k].next == if k + 1 < |ring| then ring[k + 1] else ring[0]
  }

  /** No walk along next that starts in a ring ends: the loops over the timers would not. */
  lemma {:induction false} NoEnd(ring: seq<Timer>, walk: seq<Timer>)
    requires Ring(ring) && walk != [] && walk[0] in ring && forall k {:trigger walk[k].next} :: 0 <= k < |walk| - 1 ==> walk[k].next == walk[k + 1]
    ensures walk[|walk| - 1] in ring && walk[|walk| - 1].next != null
    decreases |walk|
  {
    var n := |walk| - 1;
    if n > 0 {
      var before := walk[..n];
      forall k {:trigger before[k].next} | 0 <= k < n - 1 ensures before[k].next == before[k + 1] {
        assert walk[k].next == walk[k + 1];
      }
      NoEnd(ring, before);
      var j :| 0 <= j < |ring| && ring[j] == walk[n - 1];
      assert walk[n - 1].next == walk[n] && ring[j].next == walk[n];
    }
    var i :| 0 <= i < |ring| && ring[i] == walk[n];
    assert ring[i].next != null;
  }

  class Loop {
    var head: Timer?
    var nextTimeout: nat
    var processed: nat
    ghost var list: seq<Timer>
    ghost var fires: seq<Timer>   // every trigger so far

    /** head, next and prev thread exactly the timers of list. */
    ghost predicate Links()
      reads this`head, this`list, list`next, list`prev
    {
      && Distinct(list)
      && head == (if list == [] then null else list[0])
      && (forall i {:trigger list[i].next} :: 0 <= i < |list| ==> list[i].next == NextIn(list, i))
      && (forall i {:trigger list[i].prev} :: 0 <= i < |list| ==> list[i].prev == PrevIn(list, i))
    }

    /** next_timeout is a non-zero lower bound on every linked deadline. */
    ghost predicate Bounded()
      reads this`nextTimeout, this`list, list`expire
    {
      forall t :: t in list ==> 0 < nextTimeout <= t.expire
    }

    /** next_timeout is a lower bound exactly if no deadline is 0, and then the exact minimum. */
    ghost predicate ExactNext()
      reads this`nextTimeout, this`list, list`expire
    {
      && (Bounded() <==> forall t :: t in list ==> t.expire != 0)
      && (list != [] && (forall t :: t in list ==> t.expire != 0) ==> exists t :: t in list && nextTimeout == t.expire)
    }

    constructor ()
      ensures Links() && Bounded() && list == [] && fires == [] && nextTimeout == 0 && processed == 0
    {
      head, nextTimeout, processed, list, fires := null, 0, 0, [], [];
    }

    /** nv_loop_add_event_to_list */
    method Link(ev: Timer)
      requires Links() && ev !in list
      modifies this`head, this`list, ev`next, ev`prev, list`prev
      ensures Links() && list == [ev] + old(list)
    {
      ev.next := head;
      ev.prev := null;
      if head != null {
        head.prev := ev;
      }
      head := ev;
      ghost var l := list;
      list := [ev] + l;
      forall i: nat, j: nat | i < j < |list| ensures Apart(list, i, j) {
        assert i > 0 ==> Apart(l, i - 1, j - 1);
      }
      forall i | 0 <= i < |list| ensures list[i].prev == PrevIn(list, i) {
        if i > 1 { assert Apart(l, 0, i - 1); }
      }
    }

    /** The same stores for a timer that is already linked: they close a ring that the head leads into (see NoEnd). */
    method Relink(ev: Timer, ghost i: nat) returns (ghost ring: seq<Timer>)
      requires Links() && i < |list| && list[i] == ev
      modifies this`head, ev`next, ev`prev, list`prev
      ensures ring == [ev] + list[..i] && head == ring[0] && Ring(ring)
    {
      ghost var l := list;
      ev.next := head;
      ev.prev := null;
      if head != null {
        head.prev := ev;
      }
      head := ev;
      ring := [ev] + l[..i];
      forall k: nat | k < |ring| ensures ring[k].next == if k + 1 < |ring| then ring[k + 1] else ring[0] {
        if k > 0 { assert Apart(l, k - 1, i) && l[k - 1].next == NextIn(l, k - 1); }
      }
    }

    /** The stores of nv_loop_remove_event_from_list. */
    method Splice(ev: Timer)
      requires ev.prev != null ==> ev.prev in list && ev.prev != ev && ev.prev != ev.next
      requires ev.next != null ==> ev.next in list && ev.next != ev
      modifies this`head, ev`next, ev`prev, list`next, list`prev
      ensures head == if old(ev.prev) == null then old(ev.next) else old(head)
      ensures ev.next == null && ev.prev == null
      ensures forall t :: t in list && t != ev ==> t.next == if t == old(ev.prev) then old(ev.next) else old(t.next)
      ensures forall t :: t in list && t != ev ==> t.prev == if t == old(ev.next) then old(ev.prev) else old(t.prev)
    {
      if ev.prev != null {
        ev.prev.next := ev.next;
      } else {
        head := ev.next;
      }
      if ev.next != null {
        ev.next.prev := ev.prev;
      }
      ev.next := null;
      ev.prev := null;
    }

    /** ev is the i-th timer of the list, or, for i past the end, not linked at all. */
    ghost predicate At(ev: Timer, i: nat)
      reads this`list, ev`next, ev`prev
    {
      if i < |list| then list[i] == ev else ev !in list && ev.next == null && ev.prev == null
    }

    /** nv_loop_remove_event_from_list: an unlinked timer takes the whole list with it. */
    method Unlink(ev: Timer, ghost i: nat)
      requires Links() && At(ev, i)
      modifies this`head, this`list, ev`next, ev`prev, list`next, list`prev
      ensures Links() && list == if i < |old(list)| then Without(old(list), i) else []
      ensures ev !in list && ev.next == null && ev.prev == null
    {
      ghost var l := list;
      if i < |l| {
        WithoutAt(l, i);
        assert i > 0 ==> Apart(l, i - 1, i);
        assert i + 1 < |l| ==> Apart(l, i, i + 1);
        assert 0 < i < |l| - 1 ==> Apart(l, i - 1, i + 1);
      }
      Splice(ev);
      ghost var r := if i < |l| then Without(l, i) else [];
      forall k: nat | k < |r| ensures r[k].next == NextIn(r, k) {
        WithoutNeighbours(l, i, k);
        assert r[k] == l[Old(k, i)];
        assert k + 1 < i ==> Apart(l, k, i - 1);
        assert 0 < i <= k ==> Apart(l, i - 1, k + 1);
      }
      forall k: nat | k < |r| ensures r[k].prev == PrevIn(r, k) {
        WithoutNeighbours(l, i, k);
        assert r[k] == l[Old(k, i)];
        assert k < i < |l| - 1 ==> Apart(l, k, i + 1);
        assert i < k ==> Apart(l, i + 1, k + 1);
      }
      list := r;
    }

    /** nv_loop_add_timer, for a timer that is not linked. */
    method AddTimer(ev: Timer, now: nat, timeout: nat)
      requires Links() && ev !in list
      modifies this`head, this`list, this`nextTimeout, ev`next, ev`prev, ev`expire, ev`armed, list`prev
      ensures Links() && list == [ev] + old(list) && ev.armed && ev.expire == Deadline(now, timeout)
      ensures nextTimeout == Earlier(old(nextTimeout), ev.expire)
      ensures old(Bounded()) ==> (Bounded() <==> ev.expire != 0)
    {
      ev.armed := true;
      ev.expire := (now + timeout) % WORD;
      Link(ev);
      if nextTimeout == 0 || ev.expire < nextTimeout {
        nextTimeout := ev.expire;
      }
      assert forall t :: t in list <==> t == ev || t in old(list);
    }

    /** nv_loop_del_timer: a linked timer is removed, and no other; with an unlinked one all are lost. */
    method DelTimer(ev: Timer, ghost i: nat)
      requires Links() && At(ev, i)
      modifies this`head, this`list, ev`next, ev`prev, ev`armed, list`next, list`prev
      ensures Links() && !ev.armed && ev !in list && ev.next == null && ev.prev == null
      ensures list == if i < |old(list)| then Without(old(list), i) else []
      ensures old(Bounded()) ==> Bounded()
    {
      if i < |list| { WithoutMembers(list, i); }
      Unlink(ev, i);
      ev.armed := false;
    }

    /** nv_loop_modify_timer: the timer moves to the front with its new deadline. */
    method ModifyTimer(ev: Timer, now: nat, timeout: nat, ghost i: nat)
      requires Links() && At(ev, i)
      modifies this`head, this`list, this`nextTimeout, ev`next, ev`prev, ev`expire, list`next, list`prev
      ensures Links() && ev.expire == Deadline(now, timeout)
      ensures list == [ev] + if i < |old(list)| then Without(old(list), i) else []
      ensures nextTimeout == Earlier(old(nextTimeout), ev.expire)
      ensures old(Bounded()) ==> (Bounded() <==> ev.expire != 0)
    {
      if i < |list| { WithoutMembers(list, i); }
      Unlink(ev, i);
      ghost var rest := list;
      ev.expire := (now + timeout) % WORD;
      Link(ev);
      if nextTimeout == 0 || ev.expire < nextTimeout {
        nextTimeout := ev.expire;
      }
      assert forall t :: t in list <==> t == ev || t in rest;
    }

    /** The timeout nv_loop_run hands to epoll_wait. */
    method WaitTime(now: nat) returns (timeout: int)
      requires Links()
      ensures list == [] ==> timeout == -1
      ensures list != [] && nextTimeout <= now ==> timeout == 0
      ensures list != [] && nextTimeout > now ==> timeout == ToInt(nextTimeout - now)
      ensures list != [] && now < nextTimeout < now + 0x8000_0000 ==> now + timeout == nextTimeout
      ensures -0x8000_0000 <= timeout < 0x8000_0000
      ensures list != [] && nextTimeout > now ==> (nextTimeout - now - timeout) % 0x1_0000_0000 == 0
      ensures list != [] && Bounded() ==> (NeverLate(timeout, now) <==> nextTimeout <= now || (nextTimeout - now) % 0x1_0000_0000 < 0x8000_0000)
    {
      timeout := -1;
      if head != null {
        if nextTimeout > now {
          timeout := ToInt(nextTimeout - now);
        } else {
          timeout := 0;
        }
        assert head in list;
      }
    }

    /** Waking after that time, no linked deadline has been passed by the wait; a negative time waits for ever. */
    ghost predicate NeverLate(timeout: int, now: nat)
      reads this`list, list`expire
    {
      timeout >= 0 && forall t :: t in list && t.expire > now ==> now + timeout <= t.expire
    }

    /** Every timer of the universe knows whether it is linked, and unlinked ones have no links. */
    ghost predicate World(u: set<Timer>)
      reads this`list, u`armed, u`next, u`prev
    {
      && (forall t :: t in list ==> t in u)
      && (forall t :: t in u ==> (t.armed <==> t in list) && (t !in list ==> t.next == null && t.prev == null))
    }

    /** What the model holds of the loop. */
    ghost function View(u: set<Timer>): Sched
      reads this`list, this`nextTimeout, u`expire
    {
      Sched(list, Deadlines(u), nextTimeout)
    }

    /** A handler's request to add a timer, which it makes only if the timer is not linked. */
    method AddIfIdle(r: Request, ghost u: set<Timer>) returns (ghost added: seq<Timer>)
      requires Links() && World(u) && r.timer in u
      modifies this`head, this`list, this`nextTimeout, u`next, u`prev, u`expire, u`armed
      ensures Links() && World(u) && list == added + old(list)
      ensures forall t :: t in old(list) ==> t.expire == old(t.expire)
      ensures old(Live(u)) && Deadline(r.now, r.timeout) != 0 ==> Live(u)
      ensures View(u) == AddReq(old(View(u)), r)
    {
      added := [];
      if !r.timer.armed {
        AddTimer(r.timer, r.now, r.timeout);
        added := [r.timer];
        assert forall t :: t in list <==> t == r.timer || t in old(list);
        assert Deadlines(u) == old(Deadlines(u))[r.timer := Deadline(r.now, r.timeout)];
      }
    }

    /** What a handler does: it adds timers that are not linked. */
    method Handle(reqs: seq<Request>, ghost u: set<Timer>)
      requires Links() && World(u) && forall k :: 0 <= k < |reqs| ==> reqs[k].timer in u
      modifies this`head, this`list, this`nextTimeout, u`next, u`prev, u`expire, u`armed
      ensures Links() && World(u) && View(u) == AddReqs(old(View(u)), reqs)
      ensures old(Live(u)) && Timely(reqs) ==> Live(u)
    {
      for k := 0 to |reqs|
        invariant Links() && World(u) && View(u) == AddReqs(old(View(u)), reqs[..k])
        invariant old(Live(u)) && Timely(reqs) ==> Live(u)
      {
        AddReqsSnoc(old(View(u)), reqs, k);
        ghost var more := AddIfIdle(reqs[k], u);
      }
      assert reqs[..|reqs|] == reqs;
    }

    /** nv_event_trigger: the handler may add timers that are not linked. */
    method Trigger(ev: Timer, reqs: seq<Request>, ghost u: set<Timer>) returns (ghost added: seq<Timer>)
      requires Links() && World(u) && forall k :: 0 <= k < |reqs| ==> reqs[k].timer in u
      modifies this`head, this`list, this`nextTimeout, this`fires, u`next, u`prev, u`expire, u`armed
      ensures Links() && World(u) && list == added + old(list) && fires == old(fires) + [ev]
      ensures forall t :: t in old(list) ==> t.expire == old(t.expire)
      ensures old(Live(u)) && Timely(reqs) ==> Live(u)
      ensures View(u) == AddReqs(old(View(u)), reqs)
    {
      ghost var m := View(u);
      Handle(reqs, u);
      fires := fires + [ev];
      added := AddReqsFront(m, reqs);
      forall t | t in m.list ensures t.expire == old(t.expire) {
        assert t in m.d && Deadlines(u)[t] == m.d[t];
      }
    }

    /** What follows the trigger: the timer is counted, leaves the list and no longer belongs to the loop. */
    method Drop(ev: Timer, ghost i: nat, ghost u: set<Timer>)
      requires Links() && World(u) && i < |list| && list[i] == ev
      modifies this`head, this`list, this`processed, u`next, u`prev, u`armed
      ensures Links() && World(u) && list == Without(old(list), i) && processed == old(processed) + 1
      ensures old(Live(u)) ==> Live(u)
    {
      WithoutMembers(list, i);
      processed := processed + 1;
      Unlink(ev, i);
      ev.armed := false;
    }

    /** The same in the model's terms. */
    method Leave(ev: Timer, ghost u: set<Timer>)
      requires Links() && World(u) && ev in list
      modifies this`head, this`list, this`processed, u`next, u`prev, u`armed
      ensures processed == old(processed) + 1
      ensures Links() && World(u) && View(u) == old(View(u)).(list := Remove(old(list), ev))
      ensures old(Live(u)) ==> Live(u)
    {
      ghost var i: nat :| i < |list| && list[i] == ev;
      assert Without(list, i) == Remove(list, ev) by { RemoveIs(list, i); }
      ghost var d := Deadlines(u);
      Drop(ev, i, u);
      assert Deadlines(u) == d;
    }

    /** A due timer in the model's terms. */
    method FireLinked(ev: Timer, reqs: seq<Request>, ghost u: set<Timer>)
      requires Links() && World(u) && ev in list && forall k :: 0 <= k < |reqs| ==> reqs[k].timer in u
      modifies this, u`next, u`prev, u`expire, u`armed
      ensures Links() && World(u) && fires == old(fires) + [ev] && processed == old(processed) + 1
      ensures old(Live(u)) && Timely(reqs) ==> Live(u)
      ensures View(u) == FireModel(old(View(u)), ev, reqs)
    {
      ghost var added := Trigger(ev, reqs, u);
      assert ev in list;
      Leave(ev, u);
    }

    /** A due timer: its handler runs, then it is unlinked. */
    method Fire(ev: Timer, reqs: seq<Request>, ghost u: set<Timer>, ghost pre: seq<Timer>, ghost post: seq<Timer>)
      returns (ghost added: seq<Timer>)
      requires Links() && World(u) && list == pre + [ev] + post && forall k :: 0 <= k < |reqs| ==> reqs[k].timer in u
      modifies this, u`next, u`prev, u`expire, u`armed
      ensures Links() && World(u) && list == added + pre + post && fires == old(fires) + [ev]
      ensures processed == old(processed) + 1
      ensures forall t :: t in pre + post ==> t.expire == old(t.expire)
      ensures old(Live(u)) && Timely(reqs) ==> Live(u)
      ensures View(u) == FireModel(old(View(u)), ev, reqs)
    {
      assert list[|pre|] == ev;
      ghost var m := View(u);
      added := FireFront(m, ev, reqs, [], pre, post);
      FireLinked(ev, reqs, u);
      forall t | t in pre + post ensures t.expire == old(t.expire) {
        assert t in m.list && t in u && Deadlines(u)[t] == m.d[t];
      }
    }

    /** The same, with the handler's requests looked up. */
    method FireScripted(ev: Timer, script: map<Timer, seq<Request>>, ghost u: set<Timer>, ghost pre: seq<Timer>, ghost post: seq<Timer>)
      returns (ghost added: seq<Timer>)
      requires Links() && World(u) && list == pre + [ev] + post && ScriptOk(script, u)
      modifies this, u`next, u`prev, u`expire, u`armed
      ensures Links() && World(u) && list == added + pre + post && fires == old(fires) + [ev]
      ensures processed == old(processed) + 1
      ensures forall t :: t in post ==> t.expire == old(t.expire)
      ensures old(Live(u)) && TimelyScript(script) ==> Live(u)
      ensures View(u) == FireModel(old(View(u)), ev, Requests(script, ev))
    {
      added := Fire(ev, Requests(script, ev), u, pre, post);
    }

    /** The last loop of a pass: next_timeout from scratch. */
    method Recompute(ghost u: set<Timer>)
      requires Links() && forall t :: t in list ==> t in u
      modifies this`nextTimeout
      ensures nextTimeout == Least(list, Deadlines(u))
      ensures list == [] ==> nextTimeout == 0
      ensures ExactNext()
    {
      nextTimeout := 0;
      var ev := head;
      ghost var k := 0;
      while ev != null
        invariant 0 <= k <= |list| && ev == (if k < |list| then list[k] else null)
        invariant nextTimeout == Least(list[..k], Deadlines(u))
        decreases |list| - k
      {
        assert list[..k + 1][..k] == list[..k];
        if nextTimeout == 0 || ev.expire < nextTimeout {
          nextTimeout := ev.expire;
        }
        ev := ev.next;
        k := k + 1;
      }
      assert list[..|list|] == list;
      if list != [] && forall t :: t in list ==> t.expire != 0 { LeastIsMinimum(list, Deadlines(u)); }
    }

    /** The same in the model's terms. */
    method Rescan(ghost u: set<Timer>)
      requires Links() && World(u)
      modifies this`nextTimeout
      ensures Links() && World(u) && ExactNext() && (old(Live(u)) ==> Live(u))
      ensures View(u) == old(View(u)).(next := Least(list, Deadlines(u)))
    {
      Recompute(u);
    }

    /** One turn of the first loop of a pass. */
    method Visit(ev: Timer, now: nat, script: map<Timer, seq<Request>>, ghost p: Start, ghost u: set<Timer>, ghost k: nat, ghost added: seq<Timer>)
      returns (next: Timer?, ghost added': seq<Timer>)
      requires Links() && World(u) && Pass(p, k, added, View(u), fires) && k < |p.l0| && ev == p.l0[k] && now == p.now
      requires ScriptOk(script, u)
      modifies this, u`next, u`prev, u`expire, u`armed
      ensures Links() && World(u) && Pass(p, k + 1, added', View(u), fires) && (Requests(script, ev) == [] ==> added' == added)
      ensures processed - |fires| == old(processed) - |old(fires)|
      ensures next == if k + 1 < |p.l0| then p.l0[k + 1] else null
      ensures old(Live(u)) && TimelyScript(script) ==> Live(u)
      ensures View(u) == VisitModel(old(View(u)), ev, now, script)
    {
      ghost var pre, post := added + Pick(p.l0[..k], p.d, now, false), p.l0[k + 1..];
      assert list == pre + [ev] + post by { Around(added, Pick(p.l0[..k], p.d, now, false), p.l0, k); }
      added' := VisitKeepsPass(p, k, added, View(u), fires, script);
      next := Following(ev, pre, post);
      assert ev in list by { assert list[|pre|] == ev; }
      if ev.expire <= now {
        ghost var more := FireScripted(ev, script, u, pre, post);
      }
    }

    /** A due turn whose handler deletes the timer after it, which the walk holds already. */
    method VisitDeleting(ev: Timer, nx: Timer, ghost pre: seq<Timer>, ghost post: seq<Timer>) returns (next: Timer?)
      requires Links() && list == pre + [ev] + ([nx] + post)
      modifies this`head, this`list, this`fires, this`processed, list`next, list`prev, ev`armed, nx`armed
      ensures Links() && list == pre + post && fires == old(fires) + [ev] && processed == old(processed) + 1
      ensures next == nx && nx !in list && nx.next == null && nx.prev == null && !nx.armed
    {
      next := Following(ev, pre, [nx] + post);
      fires := fires + [ev];
      WithoutSecond(pre, ev, nx, post);
      DelTimer(nx, |pre| + 1);
      processed := processed + 1;
      Unlink(ev, |pre|);
      ev.armed := false;
    }

    /**
     The rest of a pass whose turn at ev deletes the timer after it: the deleted timer is visited all the same, fires and takes
     the whole list with it exactly if it is due, and the walk ends there, however many timers were still to come.
     */
    method PassDeleting(ev: Timer, nx: Timer, now: nat, ghost u: set<Timer>, ghost pre: seq<Timer>, ghost post: seq<Timer>)
      requires Links() && World(u) && list == pre + [ev] + ([nx] + post) && ev.expire <= now
      modifies this`head, this`list, this`fires, this`processed, u`next, u`prev, u`armed
      ensures Links() && list == if nx.expire <= now then [] else pre + post
      ensures fires == old(fires) + [ev] + if nx.expire <= now then [nx] else []
    {
      assert list[|pre|] == ev && list[|pre| + 1] == nx && forall t :: t in pre + post ==> t in list;
      var at := VisitDeleting(ev, nx, pre, post);
      while at != null
        invariant at == null || at == nx
        invariant at != null ==> Links() && list == pre + post && fires == old(fires) + [ev] && At(nx, |list|)
        invariant at == null ==> Links() && list == (if nx.expire <= now then [] else pre + post)
                                 && fires == old(fires) + [ev] + if nx.expire <= now then [nx] else []
        decreases if at == null then 0 else 1
      {
        var next := at.next;
        if at.expire <= now {
          fires := fires + [at];
          processed := processed + 1;
          assert at == nx && forall t :: t in list ==> t in u;
          Unlink(at, |list|);
          at.armed := false;
        }
        at := next;
      }
    }

    /** ev->next, read before the handler runs. */
    method Following(ev: Timer, ghost pre: seq<Timer>, ghost post: seq<Timer>) returns (next: Timer?)
      requires Links() && list == pre + [ev] + post
      ensures next == if post == [] then null else post[0]
    {
      assert list[|pre|].next == NextIn(list, |pre|);
      next := ev.next;
    }

    /** The first loop of a pass. */
    method FireDue(now: nat, script: map<Timer, seq<Request>>, ghost u: set<Timer>) returns (ghost added: seq<Timer>)
      requires Links() && World(u)
      requires ScriptOk(script, u)
      modifies this, u`next, u`prev, u`expire, u`armed
      ensures Links() && World(u) && (script == map[] ==> added == [])
      ensures list == added + Pick(old(list), old(Deadlines(u)), now, false)
      ensures fires == old(fires) + Pick(old(list), old(Deadlines(u)), now, true)
      ensures processed == old(processed) + |Pick(old(list), old(Deadlines(u)), now, true)|
      ensures old(Live(u)) && TimelyScript(script) ==> Live(u)
      ensures View(u) == PassModel(old(View(u)), old(list), now, script)
    {
      ghost var p := Start(list, Deadlines(u), fires, now);
      added := [];
      var ev := head;
      ghost var k := 0;
      PassStarts(p.l0, p.d, now, fires);
      while ev != null
        invariant 0 <= k <= |p.l0| && ev == (if k < |p.l0| then p.l0[k] else null)
        invariant Links() && World(u) && Pass(p, k, added, View(u), fires) && processed - |fires| == old(processed) - |old(fires)|
        invariant old(Live(u)) && TimelyScript(script) ==> Live(u)
        invariant script == map[] ==> added == []
        invariant View(u) == PassModel(old(View(u)), p.l0[..k], now, script)
        decreases |p.l0| - k
      {
        PassSnoc(old(View(u)), p.l0, k, now, script);
        assert p.l0[k] in old(list);
        ev, added := Visit(ev, now, script, p, u, k, added);
        k := k + 1;
      }
      PassEnds(p.l0, k, added, p.d, now);
    }

    /**
     nv_loop_process_timers: exactly the due timers linked at the start fire, once each and in list order;
     timers added by handlers stay for a later pass; next_timeout ends at the exact minimum.
     */
    method Process(now: nat, script: map<Timer, seq<Request>>, ghost u: set<Timer>) returns (ghost added: seq<Timer>)
      requires Links() && World(u)
      requires ScriptOk(script, u)
      modifies this, u`next, u`prev, u`expire, u`armed
      ensures Links() && World(u) && (script == map[] ==> added == [])
      ensures list == added + Pick(old(list), old(Deadlines(u)), now, false)
      ensures fires == old(fires) + Pick(old(list), old(Deadlines(u)), now, true)
      ensures processed == old(processed) + |Pick(old(list), old(Deadlines(u)), now, true)|
      ensures old(Live(u)) && TimelyScript(script) ==> Live(u)
      ensures View(u) == ProcessModel(old(View(u)), now, script)
      ensures ExactNext()
    {
      added := FireDue(now, script, u);
      Rescan(u);
    }

    /** The same, where no handler adds a timer. */
    method ProcessQuietly(now: nat, ghost u: set<Timer>) returns (ghost added: seq<Timer>)
      requires Links() && World(u)
      modifies this, u`next, u`prev, u`expire, u`armed
      ensures Links() && World(u) && added == []
      ensures list == Pick(old(list), old(Deadlines(u)), now, false)
      ensures processed == old(processed) + |Pick(old(list), old(Deadlines(u)), now, true)|
      ensures Deadlines(u) == old(Deadlines(u))
    {
      ghost var m := View(u);
      added := Process(now, map[], u);
      QuietPass(m, m.list, now);
    }
  }

  lemma PassStarts(l0: seq<Timer>, d: map<Timer, nat>, now: nat, fires: seq<Timer>)
    ensures [] + Pick(l0[..0], d, now, false) + l0[0..] == l0 && fires + Pick(l0[..0], d, now, true) == fires
  {
  }

  lemma PassEnds(l0: seq<Timer>, k: nat, added: seq<Timer>, d: map<Timer, nat>, now: nat)
    requires k == |l0|
    ensures l0[..k] == l0 && added + Pick(l0[..k], d, now, false) + l0[k..] == added + Pick(l0, d, now, false)
  {
    assert l0[..k] == l0;
  }

  /** A pass's point of departure. */
  datatype Start = Start(l0: seq<Timer>, d: map<Timer, nat>, fires: seq<Timer>, now: nat)

  lemma Around(added: seq<Timer>, picked: seq<Timer>, l0: seq<Timer>, k: nat)
    requires k < |l0|
    ensures added + picked + l0[k..] == (added + picked) + [l0[k]] + l0[k + 1..] == added + (picked + [l0[k]]) + l0[k + 1..]
    ensures l0[..k + 1] == l0[..k] + [l0[k]]
    ensures l0[k] in l0[k..] && forall t :: t in l0[k + 1..] ==> t in l0[k..]
  {
    assert l0[k..] == [l0[k]] + l0[k + 1..];
  }

  /** Where a pass stands after k of the timers linked at its start. */
  ghost predicate Pass(p: Start, k: nat, added: seq<Timer>, m: Sched, fires: seq<Timer>) {
    && k <= |p.l0|
    && m.list == added + Pick(p.l0[..k], p.d, p.now, false) + p.l0[k..]
    && fires == p.fires + Pick(p.l0[..k], p.d, p.now, true)
    && (forall t :: t in p.l0[k..] ==> t in p.d && t in m.d && m.d[t] == p.d[t])
  }

  ghost function Deadlines(u: set<Timer>): map<Timer, nat>
    reads u`expire
  {
    map t | t in u :: t.expire
  }

  /** The timers of a list that are due (or not due) at a time, in list order. */
  ghost function Pick(list: seq<Timer>, d: map<Timer, nat>, now: nat, due: bool): seq<Timer> {
    if list == [] then []
    else
      var t := list[|list| - 1];
      Pick(list[..|list| - 1], d, now, due) + (if (t in d && d[t] <= now) == due then [t] else [])
  }

  /** Due and not due: nothing is lost or doubled, and due means deadline passed. */
  lemma {:induction false} PickPartitions(list: seq<Timer>, d: map<Timer, nat>, now: nat)
    requires forall t :: t in list ==> t in d
    ensures multiset(Pick(list, d, now, true)) + multiset(Pick(list, d, now, false)) == multiset(list)
    ensures forall t :: t in Pick(list, d, now, true) <==> t in list && d[t] <= now
  {
    if list != [] {
      var n := |list| - 1;
      assert list == list[..n] + [list[n]];
      assert forall t :: t in list[..n] ==> t in list;
      PickPartitions(list[..n], d, now);
    }
  }

  lemma PickSnoc(list: seq<Timer>, t: Timer, d: map<Timer, nat>, now: nat)
    ensures Pick(list + [t], d, now, false) == Pick(list, d, now, false) + (if t in d && d[t] <= now then [] else [t])
    ensures Pick(list + [t], d, now, true) == Pick(list, d, now, true) + (if t in d && d[t] <= now then [t] else [])
  {
    assert (list + [t])[..|list|] == list;
  }

  /** What handlers may do: per timer, requests to add timers of the universe. */
  ghost predicate ScriptOk(script: map<Timer, seq<Request>>, u: set<Timer>) {
    forall t, k :: t in script && 0 <= k < |script[t]| ==> script[t][k].timer in u
  }

  /** No linked deadline is 0. */
  ghost predicate Live(u: set<Timer>)
    reads u`armed, u`expire
  {
    forall t :: t in u && t.armed ==> t.expire != 0
  }

  predicate Timely(reqs: seq<Request>) {
    forall k :: 0 <= k < |reqs| ==> Deadline(reqs[k].now, reqs[k].timeout) != 0
  }

  predicate TimelyScript(script: map<Timer, seq<Request>>) {
    forall t :: t in script ==> Timely(script[t])
  }

  datatype Request = Request(timer: Timer, now: nat, timeout: nat)

  /** Conversion of an unsigned long to int. */
  function ToInt(x: nat): int {
    var m := x % 0x1_0000_0000;
    if m < 0x8000_0000 then m else m - 0x1_0000_0000
  }

  /** A single timer: the loop waits for ever exactly if its timeout, modulo 2^32, is 2^31 ms or more. */
  method FarDeadlineWaits(now: nat, timeout: nat) returns (wait: int)
    requires timeout > 0 && now + timeout < WORD
    ensures wait < 0 <==> timeout % 0x1_0000_0000 >= 0x8000_0000
  {
    var loop := new Loop();
    var ev := new Timer();
    loop.AddTimer(ev, now, timeout);
    assert loop.nextTimeout == now + timeout;
    wait := loop.WaitTime(now);
  }

  /**
   A single timer and any passes of the loop: it fires in the first pass at or after now + timeout, a sum modulo 2^64,
   in none before and in none after.
   */
  method LoneTimer(now: nat, timeout: nat, passes: seq<nat>) returns (at: int, fired: nat)
    ensures -1 <= at < |passes| && fired == if at >= 0 then 1 else 0
    ensures at >= 0 ==> passes[at] >= (now + timeout) % WORD
    ensures forall k :: 0 <= k < (if at >= 0 then at else |passes|) ==> passes[k] < (now + timeout) % WORD
  {
    var loop := new Loop();
    var ev := new Timer();
    loop.AddTimer(ev, now, timeout);
    ghost var due := (now + timeout) % WORD;
    at, fired := -1, 0;
    for k := 0 to |passes|
      invariant fresh(loop) && fresh(ev) && Lone(loop, ev, due, at < 0) && -1 <= at < k
      invariant fired == if at >= 0 then 1 else 0
      invariant at >= 0 ==> passes[at] >= due
      invariant forall j :: 0 <= j < (if at >= 0 then at else k) ==> passes[j] < due
    {
      var fires := LonePass(loop, ev, due, at < 0, passes[k]);
      if fires { at, fired := k, fired + 1; }
    }
  }

  /** A loop of one timer, linked or not. */
  ghost predicate Lone(loop: Loop, ev: Timer, deadline: nat, linked: bool)
    reads loop, loop.list`next, loop.list`prev, ev
  {
    loop.Links() && loop.World({ev}) && ev.expire == deadline && loop.list == if linked then [ev] else []
  }

  method LonePass(loop: Loop, ev: Timer, ghost deadline: nat, ghost linked: bool, now: nat) returns (fires: bool)
    requires Lone(loop, ev, deadline, linked)
    modifies loop, ev`next, ev`prev, ev`expire, ev`armed
    ensures fires <==> linked && deadline <= now
    ensures Lone(loop, ev, deadline, linked && !fires)
  {
    var before := loop.processed;
    ghost var u := {ev};
    OnePick(ev, Deadlines(u), now);
    ghost var added := loop.ProcessQuietly(now, u);
    assert Deadlines(u)[ev] == ev.expire;
    fires := loop.processed > before;
  }

  /** Without handlers that add timers no deadline changes. */
  lemma {:induction false} QuietPass(m: Sched, l0: seq<Timer>, now: nat)
    ensures PassModel(m, l0, now, map[]).d == m.d
  {
    if l0 != [] { QuietPass(m, l0[..|l0| - 1], now); }
  }

  lemma OnePick(ev: Timer, d: map<Timer, nat>, now: nat)
    requires ev in d
    ensures Pick([ev], d, now, true) == if d[ev] <= now then [ev] else []
    ensures Pick([ev], d, now, false) == if d[ev] <= now then [] else [ev]
    ensures Pick([], d, now, true) == [] && Pick([], d, now, false) == []
  {
    assert [ev][..0] == [];
  }

  // ----- the loop as a value -----

  /** The timers linked, newest first, the deadline every timer holds, and next_timeout. */
  datatype Sched = Sched(list: seq<Timer>, d: map<Timer, nat>, next: nat)

  ghost function AddReq(m: Sched, r: Request): Sched {
    if r.timer in m.list then m
    else Sched([r.timer] + m.list, m.d[r.timer := Deadline(r.now, r.timeout)], Earlier(m.next, Deadline(r.now, r.timeout)))
  }

  ghost function AddReqs(m: Sched, reqs: seq<Request>): Sched {
    if reqs == [] then m else AddReq(AddReqs(m, reqs[..|reqs| - 1]), reqs[|reqs| - 1])
  }

  ghost function Remove(list: seq<Timer>, t: Timer): seq<Timer> {
    if list == [] then [] else if list[0] == t then list[1..] else [list[0]] + Remove(list[1..], t)
  }

  function Requests(script: map<Timer, seq<Request>>, t: Timer): seq<Request> {
    if t in script then script[t] else []
  }

  /** The handler adds its timers, then the fired timer leaves. */
  ghost function FireModel(m: Sched, t: Timer, reqs: seq<Request>): Sched {
    var m1 := AddReqs(m, reqs);
    m1.(list := Remove(m1.list, t))
  }

  ghost function VisitModel(m: Sched, t: Timer, now: nat, script: map<Timer, seq<Request>>): Sched {
    if t in m.d && m.d[t] <= now then FireModel(m, t, Requests(script, t)) else m
  }

  /** The timers of l0 are visited in order. */
  ghost function PassModel(m: Sched, l0: seq<Timer>, now: nat, script: map<Timer, seq<Request>>): Sched {
    if l0 == [] then m else VisitModel(PassModel(m, l0[..|l0| - 1], now, script), l0[|l0| - 1], now, script)
  }

  /** The running minimum over a list. */
  ghost function Least(list: seq<Timer>, d: map<Timer, nat>): nat {
    if list == [] then 0
    else
      var t := list[|list| - 1];
      if t in d then Earlier(Least(list[..|list| - 1], d), d[t]) else Least(list[..|list| - 1], d)
  }

  ghost function ProcessModel(m: Sched, now: nat, script: map<Timer, seq<Request>>): Sched {
    var m1 := PassModel(m, m.list, now, script);
    m1.(next := Least(m1.list, m1.d))
  }

  lemma AddReqsSnoc(m: Sched, reqs: seq<Request>, k: nat)
    requires k < |reqs|
    ensures AddReqs(m, reqs[..k + 1]) == AddReq(AddReqs(m, reqs[..k]), reqs[k])
  {
    assert reqs[..k + 1][..k] == reqs[..k];
  }

  lemma PassSnoc(m: Sched, l0: seq<Timer>, k: nat, now: nat, script: map<Timer, seq<Request>>)
    requires k < |l0|
    ensures PassModel(m, l0[..k + 1], now, script) == VisitModel(PassModel(m, l0[..k], now, script), l0[k], now, script)
  {
    assert l0[..k + 1][..k] == l0[..k];
  }

  lemma {:induction false} RemoveIs(list: seq<Timer>, i: nat)
    requires i < |list| && Distinct(list)
    ensures Remove(list, list[i]) == Without(list, i)
  {
    if i > 0 {
      assert Apart(list, 0, i);
      var rest := list[1..];
      forall a: nat, b: nat | a < b < |rest| ensures Apart(rest, a, b) { assert Apart(list, a + 1, b + 1); }
      RemoveIs(rest, i - 1);
      assert Without(list, i) == [list[0]] + Without(rest, i - 1);
    }
  }

  lemma RemoveMiddle(added: seq<Timer>, pre: seq<Timer>, t: Timer, post: seq<Timer>)
    requires Distinct(added + (pre + [t] + post))
    ensures Remove(added + (pre + [t] + post), t) == added + pre + post
    ensures t in added + (pre + [t] + post)
  {
    var list, i := added + (pre + [t] + post), |added| + |pre|;
    assert list[i] == t && Without(list, i) == added + pre + post;
    RemoveIs(list, i);
  }

  lemma DistinctCons(t: Timer, list: seq<Timer>)
    requires t !in list && Distinct(list)
    ensures Distinct([t] + list)
  {
    var l := [t] + list;
    forall i: nat, j: nat | i < j < |l| ensures Apart(l, i, j) {
      assert i > 0 ==> Apart(list, i - 1, j - 1);
    }
  }

  /** A handler's timers go in front of the list, and the deadlines of those linked before stay. */
  lemma {:induction false} AddReqsFront(m: Sched, reqs: seq<Request>) returns (added: seq<Timer>)
    ensures AddReqs(m, reqs).list == added + m.list && (reqs == [] ==> added == [])
    ensures Distinct(m.list) ==> Distinct(AddReqs(m, reqs).list)
    ensures forall t :: t in m.list && t in m.d ==> t in AddReqs(m, reqs).d && AddReqs(m, reqs).d[t] == m.d[t]
  {
    added := [];
    if reqs != [] {
      var n := |reqs| - 1;
      added := AddReqsFront(m, reqs[..n]);
      var l := AddReqs(m, reqs[..n]).list;
      if reqs[n].timer !in l {
        if Distinct(l) { DistinctCons(reqs[n].timer, l); }
        assert [reqs[n].timer] + (added + m.list) == ([reqs[n].timer] + added) + m.list;
        added := [reqs[n].timer] + added;
      }
    }
  }

  /** A visit in the model takes a pass one timer further: the list, */
  lemma VisitKeepsList(p: Start, k: nat, added: seq<Timer>, m: Sched, script: map<Timer, seq<Request>>) returns (added': seq<Timer>)
    requires k < |p.l0| && Distinct(m.list) && m.list == added + Pick(p.l0[..k], p.d, p.now, false) + p.l0[k..]
    requires p.l0[k] in p.d && p.l0[k] in m.d && m.d[p.l0[k]] == p.d[p.l0[k]]
    ensures VisitModel(m, p.l0[k], p.now, script).list == added' + Pick(p.l0[..k + 1], p.d, p.now, false) + p.l0[k + 1..]
    ensures Requests(script, p.l0[k]) == [] ==> added' == added
  {
    var t, picked := p.l0[k], Pick(p.l0[..k], p.d, p.now, false);
    Around(added, picked, p.l0, k);
    PickSnoc(p.l0[..k], t, p.d, p.now);
    added' := added;
    if m.d[t] <= p.now {
      added' := FireFront(m, t, Requests(script, t), added, picked, p.l0[k + 1..]);
    }
  }

  /** and the deadlines of the timers to come. */
  lemma VisitKeepsDeadlines(p: Start, k: nat, m: Sched, script: map<Timer, seq<Request>>, x: Timer)
    requires k < |p.l0| && x in m.list && x in m.d
    ensures var d := VisitModel(m, p.l0[k], p.now, script).d; x in d && d[x] == m.d[x]
  {
    var added := AddReqsFront(m, Requests(script, p.l0[k]));
  }

  lemma VisitKeepsPass(p: Start, k: nat, added: seq<Timer>, m: Sched, fires: seq<Timer>, script: map<Timer, seq<Request>>) returns (added': seq<Timer>)
    requires Pass(p, k, added, m, fires) && k < |p.l0| && Distinct(m.list)
    ensures p.l0[k] in m.d && (Requests(script, p.l0[k]) == [] ==> added' == added)
    ensures Pass(p, k + 1, added', VisitModel(m, p.l0[k], p.now, script), if m.d[p.l0[k]] <= p.now then fires + [p.l0[k]] else fires)
  {
    assert p.l0[k] in p.l0[k..];
    added' := VisitKeepsList(p, k, added, m, script);
    assert p.l0[..k + 1] == p.l0[..k] + [p.l0[k]];
    PickSnoc(p.l0[..k], p.l0[k], p.d, p.now);
    forall x | x in p.l0[k + 1..] ensures x in p.l0[k..] && x in m.list {
      assert p.l0[k..] == [p.l0[k]] + p.l0[k + 1..];
    }
    forall x | x in p.l0[k + 1..] ensures var d := VisitModel(m, p.l0[k], p.now, script).d; x in d && d[x] == p.d[x] {
      VisitKeepsDeadlines(p, k, m, script, x);
    }
  }

  lemma FireFront(m: Sched, t: Timer, reqs: seq<Request>, added: seq<Timer>, picked: seq<Timer>, post: seq<Timer>) returns (added': seq<Timer>)
    requires m.list == added + picked + [t] + post && Distinct(m.list)
    ensures FireModel(m, t, reqs).list == added' + picked + post && (reqs == [] ==> added' == added)
    ensures forall x :: x in m.list && x in m.d ==> x in FireModel(m, t, reqs).d && FireModel(m, t, reqs).d[x] == m.d[x]
  {
    var more := AddReqsFront(m, reqs);
    RemoveMiddle(more, added + picked, t, post);
    added' := more + added;
    assert more + (added + picked) + post == added' + picked + post;
  }

  /** The running minimum is the exact minimum of deadlines that are not 0. */
  lemma {:induction false} LeastIsMinimum(list: seq<Timer>, d: map<Timer, nat>)
    requires list != [] && forall t :: t in list ==> t in d && d[t] != 0
    ensures (exists t :: t in list && Least(list, d) == d[t]) && forall t :: t in list ==> 0 < Least(list, d) <= d[t]
  {
    var n := |list| - 1;
    var t := list[n];
    assert t in list && list == list[..n] + [t];
    if n > 0 { LeastIsMinimum(list[..n], d); }
  }

  // ----- any run of the timer calls -----

  /** A call of the loop's owner, who adds timers that are not linked and deletes or modifies linked ones. */
  datatype Op =
    | AddOp(timer: Timer, now: nat, timeout: nat)
    | DelOp(timer: Timer)
    | ModifyOp(timer: Timer, now: nat, timeout: nat)
    | ProcessOp(now: nat, script: map<Timer, seq<Request>>)

  ghost predicate OpOk(op: Op, u: set<Timer>) {
    match op
    case AddOp(t, now, timeout) => t in u && Deadline(now, timeout) != 0
    case DelOp(t) => t in u
    case ModifyOp(t, now, timeout) => t in u && Deadline(now, timeout) != 0
    case ProcessOp(_, script) => ScriptOk(script, u) && TimelyScript(script)
  }

  /** The loop and everything fired so far. */
  datatype Driven = Driven(m: Sched, fires: seq<Timer>)

  /** One call; a pass fires exactly the timers linked at its start whose deadline has come, once each and in order. */
  ghost function Play(s: Driven, op: Op): Driven {
    match op
    case AddOp(t, now, timeout) => s.(m := AddReq(s.m, Request(t, now, timeout)))
    case DelOp(t) => if t in s.m.list then s.(m := s.m.(list := Remove(s.m.list, t))) else s
    case ModifyOp(t, now, timeout) =>
      if t !in s.m.list then s
      else s.(m := Sched([t] + Remove(s.m.list, t), s.m.d[t := Deadline(now, timeout)], Earlier(s.m.next, Deadline(now, timeout))))
    case ProcessOp(now, script) => Driven(ProcessModel(s.m, now, script), s.fires + Pick(s.m.list, s.m.d, now, true))
  }

  ghost function After(s: Driven, ops: seq<Op>): Driven {
    if ops == [] then s else Play(After(s, ops[..|ops| - 1]), ops[|ops| - 1])
  }

  ghost function State(loop: Loop, u: set<Timer>): Driven
    reads loop, u`expire
  {
    Driven(loop.View(u), loop.fires)
  }

  ghost predicate Sound(loop: Loop, u: set<Timer>)
    reads loop, loop.list`next, loop.list`prev, loop.list`expire, u`armed, u`next, u`prev, u`expire
  {
    loop.Links() && loop.World(u) && loop.Bounded() && Live(u)
  }

  method AddOne(loop: Loop, t: Timer, now: nat, timeout: nat, ghost u: set<Timer>)
    requires Sound(loop, u) && t in u && Deadline(now, timeout) != 0
    modifies loop, u`next, u`prev, u`expire, u`armed
    ensures Sound(loop, u) && State(loop, u) == Play(old(State(loop, u)), AddOp(t, now, timeout))
  {
    if !t.armed {
      ghost var l, d := loop.list, Deadlines(u);
      loop.AddTimer(t, now, timeout);
      assert forall x :: x in loop.list <==> x == t || x in l;
      assert Deadlines(u) == d[t := Deadline(now, timeout)];
    }
  }

  method DelLinked(loop: Loop, t: Timer, ghost u: set<Timer>)
    requires Sound(loop, u) && t in loop.list
    modifies loop`head, loop`list, u`next, u`prev, u`armed
    ensures Sound(loop, u) && loop.list == Remove(old(loop.list), t)
  {
    ghost var i: nat :| i < |loop.list| && loop.list[i] == t;
    WithoutMembers(loop.list, i);
    RemoveIs(loop.list, i);
    loop.DelTimer(t, i);
  }

  method DelOne(loop: Loop, t: Timer, ghost u: set<Timer>)
    requires Sound(loop, u) && t in u
    modifies loop, u`next, u`prev, u`expire, u`armed
    ensures Sound(loop, u) && State(loop, u) == Play(old(State(loop, u)), DelOp(t))
  {
    if t.armed { DelLinked(loop, t, u); }
  }

  method ModifyOne(loop: Loop, t: Timer, now: nat, timeout: nat, ghost u: set<Timer>)
    requires Sound(loop, u) && t in u && Deadline(now, timeout) != 0
    modifies loop, u`next, u`prev, u`expire, u`armed
    ensures Sound(loop, u) && State(loop, u) == Play(old(State(loop, u)), ModifyOp(t, now, timeout))
  {
    if t.armed {
      ghost var i: nat :| i < |loop.list| && loop.list[i] == t;
      ghost var l, d := loop.list, Deadlines(u);
      WithoutMembers(l, i);
      RemoveIs(l, i);
      loop.ModifyTimer(t, now, timeout, i);
      assert forall x :: x in loop.list <==> x in l;
      assert Deadlines(u) == d[t := Deadline(now, timeout)];
    }
  }

  method ProcessOne(loop: Loop, now: nat, script: map<Timer, seq<Request>>, ghost u: set<Timer>)
    requires Sound(loop, u) && ScriptOk(script, u) && TimelyScript(script)
    modifies loop, u`next, u`prev, u`expire, u`armed
    ensures Sound(loop, u) && State(loop, u) == Play(old(State(loop, u)), ProcessOp(now, script))
    ensures loop.list != [] ==> exists t :: t in loop.list && loop.nextTimeout == t.expire
  {
    ghost var added := loop.Process(now, script, u);
  }

  /** One call does what the model does; after a pass next_timeout, a lower bound by Sound, is also reached. */
  method Step(loop: Loop, op: Op, ghost u: set<Timer>)
    requires Sound(loop, u) && OpOk(op, u)
    modifies loop, u`next, u`prev, u`expire, u`armed
    ensures Sound(loop, u) && State(loop, u) == Play(old(State(loop, u)), op)
    ensures op.ProcessOp? && loop.list != [] ==> exists t :: t in loop.list && loop.nextTimeout == t.expire
  {
    match op
    case AddOp(t, now, timeout) => AddOne(loop, t, now, timeout, u);
    case DelOp(t) => DelOne(loop, t, u);
    case ModifyOp(t, now, timeout) => ModifyOne(loop, t, now, timeout, u);
    case ProcessOp(now, script) => ProcessOne(loop, now, script, u);
  }

  /**
   Any list of calls from any sound state: list, deadlines, next_timeout and firings are those of the model; the list
   stays linked and next_timeout a non-zero lower bound, and after a pass it is the exact minimum.
   */
  method Drive(loop: Loop, ops: seq<Op>, ghost u: set<Timer>)
    requires Sound(loop, u) && forall op :: op in ops ==> OpOk(op, u)
    modifies loop, u`next, u`prev, u`expire, u`armed
    ensures Sound(loop, u) && State(loop, u) == After(old(State(loop, u)), ops)
    ensures ops != [] && ops[|ops| - 1].ProcessOp? && loop.list != [] ==> exists t :: t in loop.list && loop.nextTimeout == t.expire
  {
    for k := 0 to |ops|
      invariant Sound(loop, u) && State(loop, u) == After(old(State(loop, u)), ops[..k])
      invariant k > 0 && ops[k - 1].ProcessOp? && loop.list != [] ==> exists t :: t in loop.list && loop.nextTimeout == t.expire
    {
      assert ops[k] in ops && ops[..k + 1][..k] == ops[..k];
      Step(loop, ops[k], u);
    }
    assert ops[..|ops|] == ops;
  }
}
