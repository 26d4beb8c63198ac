/**
 The binary heap operations that the transaction lists rely on: push, pop, remove at a
 position and heapify, on a sequence ordered by an integer key (smallest key at the root).
 */
module Heap {

  function Parent(i: int): (p: int)
    requires 0 < i
    ensures 0 <= p < i
  {
    (i - 1) / 2
  }

  /** The heap order between position `i` and its parent. */
  ghost predicate Edge<T>(h: seq<T>, key: T -> int, i: int)
    requires 0 < i < |h|
  {
    key(h[Parent(i)]) <= key(h[i])
  }

  ghost predicate IsHeap<T>(h: seq<T>, key: T -> int) {
    forall i :: 0 < i < |h| ==> Edge(h, key, i)
  }

  /** Every edge below a parent at `lo` or later holds, except possibly the one above `hole`. */
  ghost predicate HeapAbove<T>(h: seq<T>, key: T -> int, lo: nat, hole: nat) {
    forall i :: 0 < i < |h| && Parent(i) >= lo && i != hole ==> Edge(h, key, i)
  }

  /** Every edge below a parent at `lo` or later holds, except possibly those touching `hole`. */
  ghost predicate HeapAround<T>(h: seq<T>, key: T -> int, lo: nat, hole: nat) {
    forall i :: 0 < i < |h| && Parent(i) >= lo && i != hole && Parent(i) != hole ==> Edge(h, key, i)
  }

  /** The children of `hole` are no smaller than its parent. */
  ghost predicate Bridged<T>(h: seq<T>, key: T -> int, lo: nat, hole: nat)
    requires hole < |h|
  {
    0 < hole && Parent(hole) >= lo ==>
      forall i :: 0 < i < |h| && Parent(i) == hole ==> key(h[Parent(hole)]) <= key(h[i])
  }

  ghost predicate IsMin<T>(x: T, s: seq<T>, key: T -> int) {
    x in s && forall y :: y in s ==> key(x) <= key(y)
  }

  lemma {:induction false} RootIsMin<T>(h: seq<T>, key: T -> int, i: nat)
    requires IsHeap(h, key) && i < |h|
    ensures key(h[0]) <= key(h[i])
  {
    if i > 0 {
      RootIsMin(h, key, Parent(i));
      assert Edge(h, key, i);
    }
  }

  lemma RootIsMinimum<T>(h: seq<T>, key: T -> int)
    requires IsHeap(h, key) && |h| > 0
    ensures IsMin(h[0], h, key)
  {
    forall y | y in h ensures key(h[0]) <= key(y) {
      var i :| 0 <= i < |h| && h[i] == y;
      RootIsMin(h, key, i);
    }
  }

  function Swap<T>(h: seq<T>, i: nat, j: nat): (r: seq<T>)
    requires i < |h| && j < |h|
    ensures |r| == |h|
  {
    h[i := h[j]][j := h[i]]
  }

  lemma SwapKeepsElements<T>(h: seq<T>, i: nat, j: nat)
    requires i < |h| && j < |h|
    ensures multiset(Swap(h, i, j)) == multiset(h)
  {
  }

  lemma SplitLast<T>(h: seq<T>)
    requires |h| > 0
    ensures multiset(h[..|h| - 1]) == multiset(h) - multiset{h[|h| - 1]}
  {
    assert h == h[..|h| - 1] + [h[|h| - 1]];
  }

  /** One step of rising: swapping a too small element with its parent moves the violation to the parent. */
  lemma StepUp<T>(h: seq<T>, key: T -> int, j: nat)
    requires 0 < j < |h| && HeapAbove(h, key, 0, j) && Bridged(h, key, 0, j)
    requires key(h[j]) < key(h[Parent(j)])
    ensures HeapAbove(Swap(h, Parent(j), j), key, 0, Parent(j))
    ensures Bridged(Swap(h, Parent(j), j), key, 0, Parent(j))
  {
    var p := Parent(j);
    var r := Swap(h, p, j);
    forall i | 0 < i < |r| && i != p ensures Edge(r, key, i) {
      if i != j {
        assert Edge(h, key, i);
      }
    }
    if 0 < p {
      assert Edge(h, key, p);
      forall i | 0 < i < |r| && Parent(i) == p ensures key(r[Parent(p)]) <= key(r[i]) {
        if i != j {
          assert Edge(h, key, i);
        }
      }
    }
  }

  /** One step of sinking: swapping the hole with its smaller child moves the hole to that child. */
  lemma StepDown<T>(h: seq<T>, key: T -> int, lo: nat, i: nat, j: nat)
    requires lo <= i < j < |h| && Parent(j) == i
    requires HeapAround(h, key, lo, i) && Bridged(h, key, lo, i)
    requires key(h[j]) < key(h[i])
    requires forall c :: 0 < c < |h| && Parent(c) == i ==> key(h[j]) <= key(h[c])
    ensures HeapAround(Swap(h, i, j), key, lo, j) && Bridged(Swap(h, i, j), key, lo, j)
    ensures Edge(Swap(h, i, j), key, j)
    ensures Bridged(Swap(h, i, j), key, lo, i)
    ensures 0 < i && Parent(i) >= lo ==> Edge(Swap(h, i, j), key, i)
  {
    var r := Swap(h, i, j);
    forall k | 0 < k < |r| && Parent(k) >= lo && k != j && Parent(k) != j ensures Edge(r, key, k) {
      if k != i && Parent(k) != i {
        assert Edge(h, key, k);
      }
    }
    forall k | 0 < k < |r| && Parent(k) == j ensures key(r[i]) <= key(r[k]) {
      assert Edge(h, key, k);
    }
  }

  method Up<T>(h: seq<T>, j0: nat, key: T -> int) returns (r: seq<T>)
    requires j0 < |h| && HeapAbove(h, key, 0, j0) && Bridged(h, key, 0, j0)
    ensures IsHeap(r, key)
    ensures |r| == |h| && multiset(r) == multiset(h)
  {
    r := h;
    var j: nat := j0;
    while j > 0 && key(r[j]) < key(r[Parent(j)])
      invariant j < |r| == |h| && multiset(r) == multiset(h)
      invariant HeapAbove(r, key, 0, j) && Bridged(r, key, 0, j)
    {
      var p := Parent(j);
      StepUp(r, key, j);
      SwapKeepsElements(r, p, j);
      r := Swap(r, p, j);
      j := p;
    }
  }

  /** What holds while an element sinks from `i0` and the hole is at `i`. */
  ghost predicate Sinking<T>(h: seq<T>, key: T -> int, lo: nat, i0: nat, i: nat) {
    && lo <= i0 <= i < |h|
    && HeapAround(h, key, lo, i) && Bridged(h, key, lo, i) && Bridged(h, key, lo, i0)
    && (i > i0 ==> Edge(h, key, i))
    && (i > i0 && 0 < i0 && Parent(i0) >= lo ==> Edge(h, key, i0))
  }

  lemma SinkOne<T>(h: seq<T>, key: T -> int, lo: nat, i0: nat, i: nat, j: nat)
    requires Sinking(h, key, lo, i0, i)
    requires i < j < |h| && Parent(j) == i && key(h[j]) < key(h[i])
    requires forall c :: 0 < c < |h| && Parent(c) == i ==> key(h[j]) <= key(h[c])
    ensures Sinking(Swap(h, i, j), key, lo, i0, j)
    ensures multiset(Swap(h, i, j)) == multiset(h)
  {
    StepDown(h, key, lo, i, j);
    SwapKeepsElements(h, i, j);
  }

  /** When no child is smaller than the sunk element the order below `i0` is restored. */
  lemma SinkingEnds<T>(h: seq<T>, key: T -> int, lo: nat, i0: nat, i: nat)
    requires Sinking(h, key, lo, i0, i)
    requires forall c :: 0 < c < |h| && Parent(c) == i ==> key(h[i]) <= key(h[c])
    ensures HeapAbove(h, key, lo, i0)
  {
    forall k | 0 < k < |h| && Parent(k) >= lo && k != i0 ensures Edge(h, key, k) {
    }
  }

  function SmallerChild<T>(h: seq<T>, key: T -> int, i: nat): (j: nat)
    requires 2 * i + 1 < |h|
    ensures i < j < |h| && Parent(j) == i
    ensures forall c :: 0 < c < |h| && Parent(c) == i ==> key(h[j]) <= key(h[c])
  {
    if 2 * i + 2 < |h| && key(h[2 * i + 2]) < key(h[2 * i + 1]) then 2 * i + 2 else 2 * i + 1
  }

  method Down<T>(h: seq<T>, i0: nat, key: T -> int, ghost lo: nat) returns (r: seq<T>, moved: bool)
    requires Sinking(h, key, lo, i0, i0)
    ensures |r| == |h| && multiset(r) == multiset(h)
    ensures HeapAbove(r, key, lo, i0) && Bridged(r, key, lo, i0)
    ensures moved && 0 < i0 && Parent(i0) >= lo ==> Edge(r, key, i0)
  {
    r := h;
    var i: nat := i0;
    while 2 * i + 1 < |r| && key(r[SmallerChild(r, key, i)]) < key(r[i])
      invariant |r| == |h| && multiset(r) == multiset(h)
      invariant Sinking(r, key, lo, i0, i)
      decreases |r| - i
    {
      var j := SmallerChild(r, key, i);
      SinkOne(r, key, lo, i0, i, j);
      r := Swap(r, i, j);
      i := j;
    }
    SinkingEnds(r, key, lo, i0, i);
    moved := i > i0;
  }

  method Push<T>(h: seq<T>, x: T, key: T -> int) returns (r: seq<T>)
    requires IsHeap(h, key)
    ensures IsHeap(r, key)
    ensures multiset(r) == multiset(h) + multiset{x}
  {
    var g := h + [x];
    forall i | 0 < i < |g| && i != |h| ensures Edge(g, key, i) {
      assert Edge(h, key, i);
    }
    r := Up(g, |h|, key);
  }

  /** Removes the element with the smallest key. */
  method Pop<T>(h: seq<T>, key: T -> int) returns (x: T, r: seq<T>)
    requires IsHeap(h, key) && |h| > 0
    ensures IsMin(x, h, key) && x == h[0]
    ensures IsHeap(r, key)
    ensures multiset(r) == multiset(h) - multiset{x} && |r| == |h| - 1
  {
    RootIsMinimum(h, key);
    x := h[0];
    r := RemoveAt(h, 0, key);
  }

  /** Removes the element at position `i`. */
  method RemoveAt<T>(h: seq<T>, i: nat, key: T -> int) returns (r: seq<T>)
    requires IsHeap(h, key) && i < |h|
    ensures IsHeap(r, key)
    ensures multiset(r) == multiset(h) - multiset{h[i]} && |r| == |h| - 1
  {
    hide *;
    var n := |h| - 1;
    SwapKeepsElements(h, i, n);
    SplitLast(Swap(h, i, n));
    SwappedLast(h, i, n);
    r := Swap(h, i, n)[..n];
    HoleAfterSwap(h, key, i);
    if i < n {
      var moved;
      r, moved := Down(r, i, key, 0);
      if moved {
        NoHole(r, key, i);
      } else {
        r := Up(r, i, key);
      }
    }
  }

  lemma SwappedLast<T>(h: seq<T>, i: nat, j: nat)
    requires i < |h| && j < |h|
    ensures Swap(h, i, j)[j] == h[i]
  {
  }

  lemma NoHole<T>(h: seq<T>, key: T -> int, i: nat)
    requires HeapAbove(h, key, 0, i) && (0 < i < |h| ==> Edge(h, key, i))
    ensures IsHeap(h, key)
  {
  }

  lemma HoleAfterSwap<T>(h: seq<T>, key: T -> int, i: nat)
    requires IsHeap(h, key) && i < |h|
    ensures var t := Swap(h, i, |h| - 1)[..|h| - 1];
            if i < |h| - 1 then Sinking(t, key, 0, i, i) else IsHeap(t, key)
  {
    var t := Swap(h, i, |h| - 1)[..|h| - 1];
    forall k | 0 < k < |t| && k != i && Parent(k) != i ensures Edge(t, key, k) {
      assert Edge(h, key, k);
    }
    if 0 < i < |t| {
      assert Edge(h, key, i);
      forall k | 0 < k < |t| && Parent(k) == i ensures key(t[Parent(i)]) <= key(t[k]) {
        assert Edge(h, key, k);
      }
    }
  }

  /** Establishes heap order on an arbitrary sequence. */
  method Init<T>(h: seq<T>, key: T -> int) returns (r: seq<T>)
    ensures IsHeap(r, key)
    ensures multiset(r) == multiset(h) && |r| == |h|
  {
    r := h;
    var k := |h| / 2;
    while k > 0
      invariant 0 <= k <= |h| / 2 && |r| == |h| && multiset(r) == multiset(h)
      invariant forall i :: 0 < i < |r| && Parent(i) >= k ==> Edge(r, key, i)
      decreases k
    {
      k := k - 1;
      var sunk;
      r, sunk := Down(r, k, key, k);
    }
  }
}
