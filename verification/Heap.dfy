/**
 The binary max-heap of src/base/data/nv_heap.c: sifting in place on an array
 that doubles when it is full.
 */
module Heap {

  const INITIAL_CAPACITY: nat := 10

  datatype Option<+T> = None | Some(value: T)

  function Parent(i: nat): nat
    requires i > 0
  {
    (i - 1) / 2
  }

  /** Heap order on the first n elements, except that `hole` may exceed its parent. */
  ghost predicate OrderedBut(s: seq<int>, n: nat, hole: nat)
    requires n <= |s|
  {
    forall i: nat :: 0 < i < n && i != hole ==> s[i] <= s[Parent(i)]
  }

  ghost predicate Ordered(s: seq<int>, n: nat)
    requires n <= |s|
  {
    forall i: nat :: 0 < i < n ==> s[i] <= s[Parent(i)]
  }

  /** Children of the hole do not exceed the hole's parent. */
  ghost predicate ChildrenBelow(s: seq<int>, n: nat, hole: nat)
    requires n <= |s| && hole < n
  {
    forall i: nat :: 0 < i < n && hole > 0 && Parent(i) == hole ==> s[i] <= s[Parent(hole)]
  }

  /** Heap order, except that the children of `hole` may exceed it. */
  ghost predicate OrderedAbove(s: seq<int>, n: nat, hole: nat)
    requires n <= |s|
  {
    forall i: nat :: 0 < i < n && Parent(i) != hole ==> s[i] <= s[Parent(i)]
  }

  function Swap(s: seq<int>, i: nat, j: nat): (r: seq<int>)
    requires i < |s| && j < |s|
    ensures |r| == |s|
  {
    s[i := s[j]][j := s[i]]
  }

  lemma SwapKeepsBag(s: seq<int>, n: nat, i: nat, j: nat)
    requires i < n && j < n && n <= |s|
    ensures multiset(Swap(s, i, j)[..n]) == multiset(s[..n])
  {
    var p := s[..n];
    assert Swap(s, i, j)[..n] == p[i := p[j]][j := p[i]];
  }

  /** One step of sifting up. */
  lemma UpStep(s: seq<int>, n: nat, i: nat)
    requires 0 < i < n <= |s| && OrderedBut(s, n, i) && ChildrenBelow(s, n, i) && s[i] > s[Parent(i)]
    ensures var r := Swap(s, i, Parent(i)); OrderedBut(r, n, Parent(i)) && ChildrenBelow(r, n, Parent(i))
  {
    var p, r := Parent(i), Swap(s, i, Parent(i));
    forall k: nat | 0 < k < n && k != p ensures r[k] <= r[Parent(k)] {
      if k != i && Parent(k) == p { assert s[k] <= s[p]; }
    }
    if p > 0 { assert s[p] <= s[Parent(p)]; }
  }

  ghost predicate IsLargestChild(s: seq<int>, n: nat, i: nat, c: nat)
    requires n <= |s|
  {
    0 < c < n && Parent(c) == i && forall k: nat :: 0 < k < n && Parent(k) == i ==> s[k] <= s[c]
  }

  /** A hole that is not below any child is no hole. */
  lemma Settled(s: seq<int>, n: nat, i: nat)
    requires i < n <= |s| && OrderedAbove(s, n, i)
    requires forall k: nat :: 0 < k < n && Parent(k) == i ==> s[k] <= s[i]
    ensures Ordered(s, n)
  {
  }

  /** One step of sifting down: the larger child comes up. */
  lemma DownStep(s: seq<int>, n: nat, i: nat, c: nat)
    requires i < n <= |s| && IsLargestChild(s, n, i, c) && OrderedAbove(s, n, i) && ChildrenBelow(s, n, i)
    requires s[i] < s[c]
    ensures var r := Swap(s, i, c); OrderedAbove(r, n, c) && ChildrenBelow(r, n, c)
  {
    var r := Swap(s, i, c);
    forall k: nat | 0 < k < n && Parent(k) != c ensures r[k] <= r[Parent(k)] {
      if k == i { assert s[c] <= s[Parent(i)]; }
    }
    forall k: nat | 0 < k < n && Parent(k) == c ensures r[k] <= r[Parent(c)] {
      assert s[k] <= s[c];
    }
  }

  lemma TwoChildren(i: nat)
    ensures forall k: nat :: k > 0 && Parent(k) == i ==> k == 2 * i + 1 || k == 2 * i + 2
  {
  }

  /** The root is a largest element. */
  lemma {:induction false} RootIsMax(s: seq<int>, n: nat, i: nat)
    requires i < n <= |s| && Ordered(s, n)
    ensures s[i] <= s[0]
  {
    if i > 0 { RootIsMax(s, n, Parent(i)); }
  }

  class IntHeap {
    var data: array<int>
    var size: nat

    ghost predicate Valid()
      reads this, data
    {
      size <= data.Length && data.Length > 0 && Ordered(data[..], size)
    }

    ghost function Items(): multiset<int>
      requires size <= data.Length
      reads this, data
    {
      multiset(data[..size])
    }

    /** nv_heap_init */
    constructor ()
      ensures Valid() && Items() == multiset{} && fresh(data)
    {
      data := new int[INITIAL_CAPACITY];
      size := 0;
    }

    /** nv_heap_sift_up, on the first n elements */
    method SiftUp(start: nat, n: nat)
      requires start < n <= data.Length && OrderedBut(data[..], n, start) && ChildrenBelow(data[..], n, start)
      modifies data
      ensures Ordered(data[..], n) && multiset(data[..n]) == old(multiset(data[..n]))
    {
      var index := start;
      while index > 0
        invariant 0 <= index < n && OrderedBut(data[..], n, index) && ChildrenBelow(data[..], n, index)
        invariant multiset(data[..n]) == old(multiset(data[..n]))
      {
        var parent := (index - 1) / 2;
        if data[index] <= data[parent] { return; }
        ghost var s := data[..];
        UpStep(s, n, index);
        SwapKeepsBag(s, n, index, parent);
        data[index], data[parent] := data[parent], data[index];
        assert data[..] == Swap(s, index, parent);
        assert data[..n] == data[..][..n] && s[..n] == s[..n];
        index := parent;
      }
    }

    method LargerChild(index: nat) returns (largest: nat)
      requires 2 * index + 1 < size <= data.Length
      ensures IsLargestChild(data[..], size, index, largest)
    {
      var left, right := 2 * index + 1, 2 * index + 2;
      largest := left;
      if right < size && data[right] > data[left] { largest := right; }
      TwoChildren(index);
    }

    /** nv_heap_sift_down */
    method SiftDown(start: nat)
      requires start < size <= data.Length && OrderedAbove(data[..], size, start) && ChildrenBelow(data[..], size, start)
      modifies data
      ensures Ordered(data[..], size) && multiset(data[..size]) == old(multiset(data[..size]))
    {
      var index := start;
      while 2 * index + 1 < size
        invariant 0 <= index < size && OrderedAbove(data[..], size, index) && ChildrenBelow(data[..], size, index)
        invariant multiset(data[..size]) == old(multiset(data[..size]))
        decreases size - index
      {
        var largest := LargerChild(index);
        ghost var s := data[..];
        if data[index] >= data[largest] {
          Settled(s, size, index);
          return;
        }
        DownStep(s, size, index, largest);
        SwapKeepsBag(s, size, index, largest);
        data[index], data[largest] := data[largest], data[index];
        assert data[..] == Swap(s, index, largest);
        assert data[..size] == data[..][..size];
        index := largest;
      }
      TwoChildren(index);
      Settled(data[..], size, index);
    }

    /** realloc to twice the size, contents kept. */
    method Grow()
      requires data.Length > 0 && size <= data.Length
      modifies this`data
      ensures fresh(data) && data.Length == 2 * old(data.Length) && data[..size] == old(data[..size])
    {
      var old_ := data;
      var bigger := new int[2 * old_.Length];
      for k := 0 to size
        invariant bigger[..k] == old_[..k]
        modifies bigger
      {
        bigger[k] := old_[k];
      }
      data := bigger;
    }

    /** A new last element, sifted up, where there is room. */
    method Place(value: int)
      requires Valid() && size < data.Length
      modifies this`size, data
      ensures Valid() && Items() == old(Items()) + multiset{value} && data == old(data)
    {
      ghost var s := data[..];
      data[size] := value;
      assert data[..] == s[size := value];
      Appended(s, size, value);
      SiftUp(size, size + 1);
      size := size + 1;
    }

    /** nv_heap_insert: a full array doubles first. */
    method Insert(value: int)
      requires Valid()
      modifies this, data
      ensures Valid() && Items() == old(Items()) + multiset{value}
      ensures if old(size) < old(data.Length) then data == old(data) else fresh(data) && data.Length == 2 * old(data.Length)
    {
      if size == data.Length {
        ghost var s := data[..];
        Grow();
        OrderedPrefix(s, data[..], size);
      }
      Place(value);
    }

    /** nv_heap_remove: a largest element, or the exit on an empty heap. */
    method Remove() returns (r: Option<int>)
      requires Valid()
      modifies this`size, data
      ensures Valid() && data == old(data)
      ensures r.None? <==> old(size) == 0
      ensures r.None? ==> size == 0
      ensures r.Some? ==> size == old(size) - 1
      ensures r.Some? ==> old(Items()) == Items() + multiset{r.value} && forall x :: x in old(Items()) ==> x <= r.value
    {
      if size == 0 { return None; }
      ghost var s := data[..];
      RootIsMaxItem(s, size);
      var root := data[0];
      data[0] := data[size - 1];
      size := size - 1;
      assert data[..] == s[0 := s[size]];
      LastToRoot(s, size);
      if size > 0 {
        SiftDown(0);
      }
      return Some(root);
    }
  }

  lemma OrderedPrefix(s: seq<int>, r: seq<int>, n: nat)
    requires n <= |s| && n <= |r| && s[..n] == r[..n]
    ensures Ordered(s, n) == Ordered(r, n)
  {
    assert forall i :: 0 <= i < n ==> s[i] == s[..n][i] && r[i] == r[..n][i];
  }

  /** A new last element is a hole without children. */
  lemma Appended(s: seq<int>, n: nat, value: int)
    requires n < |s| && Ordered(s, n)
    ensures var r := s[n := value];
            OrderedBut(r, n + 1, n) && ChildrenBelow(r, n + 1, n) && multiset(r[..n + 1]) == multiset(s[..n]) + multiset{value}
  {
    assert s[n := value][..n + 1] == s[..n] + [value];
  }

  /** Moving the last element to the root drops exactly the root. */
  lemma LastToRoot(s: seq<int>, n: nat)
    requires n < |s| && Ordered(s, n + 1)
    ensures multiset(s[..n + 1]) == multiset(s[0 := s[n]][..n]) + multiset{s[0]}
    ensures n > 0 ==> OrderedAbove(s[0 := s[n]], n, 0) && ChildrenBelow(s[0 := s[n]], n, 0)
  {
    assert s[..n + 1] == s[..n] + [s[n]];
    if n > 0 {
      assert s[..n] == [s[0]] + s[1..n] && s[0 := s[n]][..n] == [s[n]] + s[1..n];
    } else {
      assert s[..n] == [] && s[0 := s[n]][..n] == [];
    }
  }

  lemma RootIsMaxItem(s: seq<int>, n: nat)
    requires n <= |s| && Ordered(s, n)
    ensures forall x :: x in multiset(s[..n]) ==> x <= s[0]
  {
    forall i: nat | i < n ensures s[..n][i] <= s[0] { RootIsMax(s, n, i); }
  }

  method InsertAll(h: IntHeap, xs: seq<int>)
    requires h.Valid() && h.Items() == multiset{}
    modifies h, h.data
    ensures h.Valid() && h.Items() == multiset(xs) && (fresh(h.data) || h.data == old(h.data))
  {
    for k := 0 to |xs|
      invariant h.Valid() && h.Items() == multiset(xs[..k]) && (fresh(h.data) || h.data == old(h.data))
    {
      h.Insert(xs[k]);
      assert xs[..k + 1] == xs[..k] + [xs[k]];
    }
    assert xs[..|xs|] == xs;
  }

  ghost predicate Descending(ys: seq<int>) {
    forall i, j :: 0 <= i < j < |ys| ==> ys[i] >= ys[j]
  }

  ghost predicate AllAbove(ys: seq<int>, items: multiset<int>) {
    forall i, x :: 0 <= i < |ys| && x in items ==> x <= ys[i]
  }

  /** Taking a largest remaining element keeps the output descending. */
  lemma DrainStep(ys: seq<int>, x: int, before: multiset<int>, items: multiset<int>)
    requires Descending(ys) && AllAbove(ys, before) && before == items + multiset{x}
    requires forall y :: y in before ==> y <= x
    ensures Descending(ys + [x]) && AllAbove(ys + [x], items)
    ensures multiset(ys + [x]) + items == multiset(ys) + before
  {
    assert x in before;
    assert forall y :: y in items ==> y in before;
  }

  /** Inserting everything and removing until empty sorts in non-increasing order. */
  method Drain(xs: seq<int>) returns (ys: seq<int>)
    ensures multiset(ys) == multiset(xs) && Descending(ys)
  {
    var h := new IntHeap();
    InsertAll(h, xs);
    ys := [];
    while h.size > 0
      invariant fresh(h) && fresh(h.data) && h.Valid()
      invariant multiset(ys) + h.Items() == multiset(xs) && Descending(ys) && AllAbove(ys, h.Items())
      decreases h.size
    {
      ghost var before := h.Items();
      var r := h.Remove();
      DrainStep(ys, r.value, before, h.Items());
      ys := ys + [r.value];
    }
    assert h.Items() == multiset{};
  }
}
