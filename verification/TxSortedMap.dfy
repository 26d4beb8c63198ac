/**
 The nonce-to-transaction map with its heap index and cached listing (core/tx_list.go).
 Every method is proved against the plain map functions of `Transactions`, and keeps the
 index a min-heap permutation of the map's keys and the cache, when present, the full
 nonce-sorted listing.
 */
module SortedMap {
  import opened Common
  import opened Transactions
  import Heap
  import Sorting

  function Id(n: nat): int { n }

  function NonceOf(tx: Tx): int { tx.nonce }

  ghost function Elements(s: seq<nat>): set<nat> {
    set x | x in s
  }

  ghost predicate Distinct(s: seq<nat>) {
    forall i, j :: 0 <= i < j < |s| ==> s[i] != s[j]
  }

  lemma {:induction false} DistinctIsSet(s: seq<nat>)
    requires Distinct(s)
    ensures multiset(s) == multiset(Elements(s))
  {
    if s != [] {
      var t := s[..|s| - 1];
      DistinctIsSet(t);
      assert s == t + [s[|s| - 1]];
      assert Elements(s) == Elements(t) + {s[|s| - 1]};
    }
  }

  lemma SetIsDistinct(s: seq<nat>, k: set<nat>)
    requires multiset(s) == multiset(k)
    ensures Distinct(s) && Elements(s) == k && |s| == |k|
  {
    assert |multiset(s)| == |s|;
    forall i, j | 0 <= i < j < |s| ensures s[i] != s[j] {
      if s[i] == s[j] { TwiceInMultiset(s, i, j); }
    }
    forall x ensures x in Elements(s) <==> x in k {
      assert x in s <==> x in multiset(s);
    }
  }

  lemma WithoutKey(k: set<nat>, x: nat)
    requires x in k
    ensures multiset(k - {x}) == multiset(k) - multiset{x}
  {
  }

  /** The transactions of `m` at the given nonces, in that order. */
  ghost function Pick(m: Txs, ns: seq<nat>): (s: seq<Tx>)
    requires forall i :: 0 <= i < |ns| ==> ns[i] in m
    ensures |s| == |ns|
  {
    seq(|ns|, i requires 0 <= i < |ns| => m[ns[i]])
  }

  lemma PickLists(m: Txs, ns: seq<nat>)
    requires Keyed(m) && Distinct(ns) && Elements(ns) == m.Keys
    ensures forall i :: 0 <= i < |ns| ==> ns[i] in m
    ensures Lists(Pick(m, ns), m)
  {
    assert forall i :: 0 <= i < |ns| ==> ns[i] in Elements(ns);
    var s := Pick(m, ns);
    forall n | n in m ensures m[n] in s {
      assert n in Elements(ns);
      var i :| 0 <= i < |ns| && ns[i] == n;
      assert s[i] == m[n];
    }
  }

  /** A listing without repeated nonces, once sorted, is the sorted listing. */
  lemma SortedLists(s: seq<Tx>, t: seq<Tx>, m: Txs)
    requires Lists(s, m) && Keyed(m)
    requires multiset(t) == multiset(s) && |t| == |s| && Sorting.Sorted(t, NonceOf)
    ensures SortedListing(t, m)
  {
    forall x: Tx ensures x in t <==> x in s {
      assert x in t <==> x in multiset(t);
    }
    forall i | 0 <= i < |t| ensures t[i].nonce in m && m[t[i].nonce] == t[i] {
      assert t[i] in s;
    }
    forall i, j | 0 <= i < j < |t| ensures t[i].nonce != t[j].nonce {
      var a :| 0 <= a < |s| && s[a] == t[i];
      OnceInListing(s, m, a);
      if t[i] == t[j] { TwiceInMultiset(t, i, j); }
    }
    assert Ascending(t);
  }

  lemma {:induction false} OnceInListing(s: seq<Tx>, m: Txs, a: nat)
    requires Lists(s, m) && a < |s|
    ensures multiset(s)[s[a]] == 1
  {
    assert s == s[..a] + [s[a]] + s[a + 1..];
    assert s[a] !in s[..a] && s[a] !in s[a + 1..];
    assert multiset(s)[s[a]] == multiset(s[..a])[s[a]] + 1 + multiset(s[a + 1..])[s[a]];
  }

  /** The position where a sorted listing reaches nonce `t`. */
  ghost function SplitPoint(s: seq<Tx>, t: nat): (j: nat)
    requires Ascending(s)
    ensures j <= |s|
    ensures forall i :: 0 <= i < j ==> s[i].nonce < t
    ensures forall i :: j <= i < |s| ==> s[i].nonce >= t
  {
    if s == [] then 0
    else if s[|s| - 1].nonce < t then |s|
    else SplitPoint(s[..|s| - 1], t)
  }

  /** Dropping as many leading entries as there are nonces below `t` keeps a listing sorted and complete. */
  lemma ShiftFront(c: seq<Tx>, m: Txs, t: nat, k: nat)
    requires SortedListing(c, m) && Keyed(m) && k == |Below(m, t)|
    ensures k <= |c| && SortedListing(c[k..], From(m, t))
  {
    var j := SplitPoint(c, t);
    var low := Below(m, t);
    FrontLists(c, m, low, j);
    assert Keyed(low);
    ListingLength(c[..j], low);
    BackLists(c, m, From(m, t), j);
  }

  lemma FrontLists(c: seq<Tx>, m: Txs, low: Txs, j: nat)
    requires SortedListing(c, m) && Keyed(m) && j <= |c|
    requires forall n :: n in low ==> n in m && low[n] == m[n]
    requires forall i :: 0 <= i < |c| ==> (c[i].nonce in low <==> i < j)
    ensures SortedListing(c[..j], low)
  {
    SublistLists(c, m, c[..j], low, 0);
  }

  lemma BackLists(c: seq<Tx>, m: Txs, high: Txs, j: nat)
    requires SortedListing(c, m) && Keyed(m) && j <= |c|
    requires forall n :: n in high ==> n in m && high[n] == m[n]
    requires forall i :: 0 <= i < |c| ==> (c[i].nonce in high <==> j <= i)
    ensures SortedListing(c[j..], high)
  {
    SublistLists(c, m, c[j..], high, j);
  }

  lemma SublistLists(c: seq<Tx>, m: Txs, d: seq<Tx>, part: Txs, j: nat)
    requires SortedListing(c, m) && Keyed(m) && j + |d| <= |c|
    requires forall i :: 0 <= i < |d| ==> d[i] == c[j + i]
    requires forall n :: n in part ==> n in m && part[n] == m[n]
    requires forall i :: 0 <= i < |c| ==> (c[i].nonce in part <==> j <= i < j + |d|)
    ensures SortedListing(d, part)
  {
    forall n | n in part ensures part[n] in d {
      var i :| 0 <= i < |c| && c[i] == m[n];
      assert d[i - j] == part[n];
    }
  }

  lemma ReversedLists(c: seq<Tx>, m: Txs, d: seq<Tx>)
    requires SortedListing(c, m) && |d| == |c|
    requires forall i :: 0 <= i < |d| ==> d[i] == c[|c| - 1 - i]
    ensures Lists(d, m) && Descending(d)
  {
    forall n | n in m ensures m[n] in d {
      var i :| 0 <= i < |c| && c[i] == m[n];
      assert d[|c| - 1 - i] == m[n];
    }
  }

  lemma AppendLists(s: seq<Tx>, m: Txs, tx: Tx)
    requires Lists(s, m) && tx.nonce !in m
    ensures Lists(s + [tx], m[tx.nonce := tx])
  {
    var t := s + [tx];
    assert t[|s|] == tx;
    forall n | n in m ensures m[n] in t {
      var i :| 0 <= i < |s| && s[i] == m[n];
      assert t[i] == m[n];
    }
  }

  /** The first `k` entries of the sorted listing are the `k` lowest nonces. */
  lemma ShiftBack(c: seq<Tx>, m: Txs, k: nat)
    requires SortedListing(c, m) && Keyed(m) && k <= |c|
    ensures SortedListing(c[..k], Lowest(m, k))
  {
    forall i | 0 <= i < |c| ensures Rank(m, c[i].nonce) == i {
      ListingRank(c, m, i);
    }
    FrontLists(c, m, Lowest(m, k), k);
  }

  /** `removed` lists in nonce order what `m` has and `rest` no longer has, all of it below `rest`. */
  ghost predicate SplitOff(m: Txs, rest: Txs, removed: seq<Tx>) {
    && (forall n :: n in rest ==> n in m && rest[n] == m[n])
    && (forall n :: n in m && n !in rest ==> m[n] in removed)
    && (forall i :: 0 <= i < |removed| ==> removed[i].nonce in m && m[removed[i].nonce] == removed[i])
    && (forall i, n :: 0 <= i < |removed| && n in rest ==> removed[i].nonce < n)
    && Ascending(removed)
  }

  lemma SplitOffNone(m: Txs)
    ensures SplitOff(m, m, [])
  {
  }

  lemma SplitOffMore(m: Txs, rest: Txs, removed: seq<Tx>, n: nat)
    requires Keyed(m) && SplitOff(m, rest, removed) && n in rest && forall x :: x in rest ==> n <= x
    ensures SplitOff(m, rest - {n}, removed + [rest[n]]) && n in m && m[n].nonce == n && rest[n] == m[n]
  {
    var r := removed + [rest[n]];
    forall x | x in m && x !in rest - {n} ensures m[x] in r {
      if x == n { assert r[|removed|] == m[x]; }
      else { assert m[x] in removed; }
    }
  }

  lemma SplitOffAt(m: Txs, rest: Txs, removed: seq<Tx>, t: nat)
    requires Keyed(m) && SplitOff(m, rest, removed)
    requires forall i :: 0 <= i < |removed| ==> removed[i].nonce < t
    requires forall n :: n in rest ==> n >= t
    ensures rest == From(m, t) && SortedListing(removed, Below(m, t)) && |removed| == |Below(m, t)|
  {
    forall n | n in m ensures n in rest <==> n >= t {
      if n !in rest {
        var i :| 0 <= i < |removed| && removed[i] == m[n];
      }
    }
    ListingLength(removed, Below(m, t));
  }

  ghost predicate IsIndex(index: seq<nat>, items: Txs) {
    Keyed(items) && multiset(index) == multiset(items.Keys) && Heap.IsHeap(index, Id)
  }

  ghost predicate IsCache(cache: Option<seq<Tx>>, items: Txs) {
    cache.Some? ==> SortedListing(cache.value, items)
  }

  /** What a filter leaves while the nonces in `todo` are still to be looked at. */
  ghost function Unscanned(m: Txs, f: Tx -> bool, todo: set<nat>): Txs {
    map n | n in m && (n in todo || !f(m[n])) :: m[n]
  }

  ghost function Scanned(m: Txs, f: Tx -> bool, todo: set<nat>): Txs {
    map n | n in m && n !in todo && f(m[n]) :: m[n]
  }

  lemma ScanStart(m: Txs, f: Tx -> bool)
    ensures Unscanned(m, f, m.Keys) == m && Scanned(m, f, m.Keys) == map[]
  {
  }

  lemma ScanOne(m: Txs, f: Tx -> bool, todo: set<nat>, n: nat)
    requires n in todo && todo <= m.Keys
    ensures n in Unscanned(m, f, todo) && Unscanned(m, f, todo)[n] == m[n] && n !in Scanned(m, f, todo)
    ensures if f(m[n])
            then Unscanned(m, f, todo - {n}) == Unscanned(m, f, todo) - {n} && Scanned(m, f, todo - {n}) == Scanned(m, f, todo)[n := m[n]]
            else Unscanned(m, f, todo - {n}) == Unscanned(m, f, todo) && Scanned(m, f, todo - {n}) == Scanned(m, f, todo)
    ensures Keyed(m) ==> Keyed(Unscanned(m, f, todo - {n}))
  {
  }

  lemma ScanDone(m: Txs, f: Tx -> bool)
    ensures Unscanned(m, f, {}) == Reject(m, f) && Scanned(m, f, {}) == Select(m, f)
    ensures Keyed(m) ==> Keyed(Reject(m, f))
  {
  }

  class TxSortedMap {
    var items: Txs
    var index: seq<nat>
    var cache: Option<seq<Tx>>

    ghost predicate Indexed()
      reads this
    {
      IsIndex(index, items)
    }

    ghost predicate Valid()
      reads this
    {
      IsIndex(index, items) && IsCache(cache, items)
    }

    constructor ()
      ensures Valid() && items == map[]
    {
      items, index, cache := map[], [], None;
    }

    method Put(tx: Tx)
      requires Valid()
      modifies this
      ensures Valid() && items == old(items)[tx.nonce := tx]
    {
      if tx.nonce !in items {
        index := Heap.Push(index, tx.nonce, Id);
      }
      assert items[tx.nonce := tx].Keys == items.Keys + {tx.nonce};
      items, cache := items[tx.nonce := tx], None;
    }

    /** The smallest nonce is at the root of the index. */
    lemma RootNonce()
      requires Indexed() && |index| > 0
      ensures index[0] in items && forall n :: n in items ==> index[0] <= n
    {
      Heap.RootIsMinimum(index, Id);
      SetIsDistinct(index, items.Keys);
      forall n | n in items ensures index[0] <= n {
        assert n in Elements(index);
        assert Id(index[0]) <= Id(n);
      }
      assert index[0] in Elements(index);
    }

    lemma EmptyIndex()
      requires Indexed() && |index| == 0
      ensures items == map[]
    {
      SetIsDistinct(index, items.Keys);
    }

    method PopRoot() returns (nonce: nat)
      requires Indexed() && |index| > 0
      modifies this
      ensures Indexed() && cache == old(cache) && |index| == old(|index|) - 1
      ensures nonce == old(index[0]) && nonce in old(items) && items == old(items) - {nonce}
      ensures forall n :: n in old(items) ==> nonce <= n
    {
      RootNonce();
      nonce, index := Heap.Pop(index, Id);
      WithoutKey(items.Keys, nonce);
      assert (items - {nonce}).Keys == items.Keys - {nonce};
      items := items - {nonce};
    }

    /** Removes and returns, in nonce order, every transaction below `threshold`. */
    method Forward(threshold: nat) returns (removed: seq<Tx>)
      requires Valid()
      modifies this
      ensures Valid() && items == From(old(items), threshold)
      ensures SortedListing(removed, Below(old(items), threshold))
    {
      hide SortedListing, Heap.IsHeap;
      removed := [];
      while |index| > 0 && index[0] < threshold
        invariant Indexed() && cache == old(cache) && Keyed(old(items))
        invariant SplitOff(old(items), items, removed)
        invariant forall i :: 0 <= i < |removed| ==> removed[i].nonce < threshold
        decreases |index|
      {
        RootNonce();
        SplitOffMore(old(items), items, removed, index[0]);
        removed := removed + [items[index[0]]];
        var popped := PopRoot();
      }
      if |index| > 0 { RootNonce(); } else { EmptyIndex(); }
      SplitOffAt(old(items), items, removed, threshold);
      if cache.Some? {
        ShiftFront(cache.value, old(items), threshold, |removed|);
        cache := Some(cache.value[|removed|..]);
      }
    }

    /** Removes the transactions satisfying `f`, leaving the index to be rebuilt. */
    method FilterOnly(f: Tx -> bool) returns (removed: seq<Tx>)
      requires Keyed(items)
      modifies this`items, this`cache
      ensures Keyed(items) && items == Reject(old(items), f)
      ensures Lists(removed, Select(old(items), f))
      ensures cache == if removed == [] then old(cache) else None
    {
      hide Lists, Scanned, Unscanned, Select, Reject;
      removed := [];
      ghost var gone: Txs := map[];
      ScanStart(items, f);
      assert Lists(removed, gone) by { EmptyLists(); }
      var todo := items.Keys;
      while todo != {}
        invariant todo <= old(items).Keys && cache == old(cache)
        invariant items == Unscanned(old(items), f, todo) && gone == Scanned(old(items), f, todo)
        invariant Lists(removed, gone)
        decreases |todo|
      {
        var n :| n in todo;
        ScanOne(old(items), f, todo, n);
        todo := todo - {n};
        if f(items[n]) {
          AppendLists(removed, gone, items[n]);
          gone := gone[n := items[n]];
          removed := removed + [items[n]];
          items := items - {n};
        }
      }
      ScanDone(old(items), f);
      if |removed| > 0 {
        cache := None;
      }
    }

    /** Rebuilds the index from the keys, whatever it held before. */
    method Reheap()
      requires Keyed(items)
      modifies this`index, this`cache
      ensures Valid() && cache == None
    {
      index := [];
      var todo := items.Keys;
      while todo != {}
        invariant todo <= items.Keys
        invariant multiset(index) == multiset(items.Keys - todo)
        decreases |todo|
      {
        var n :| n in todo;
        assert items.Keys - (todo - {n}) == (items.Keys - todo) + {n};
        todo := todo - {n};
        index := index + [n];
      }
      assert items.Keys - todo == items.Keys;
      index := Heap.Init(index, Id);
      cache := None;
    }

    method Filter(f: Tx -> bool) returns (removed: seq<Tx>)
      requires Valid()
      modifies this
      ensures Valid() && items == Reject(old(items), f)
      ensures Lists(removed, Select(old(items), f))
    {
      removed := FilterOnly(f);
      if |removed| > 0 {
        Reheap();
      } else {
        NothingSelected(old(items), f);
      }
    }

    /** Keeps the `threshold` lowest nonces and returns the others, highest first. */
    method Cap(threshold: nat) returns (drops: seq<Tx>)
      requires Valid()
      modifies this
      ensures Valid() && items == Lowest(old(items), threshold)
      ensures Lists(drops, AllButLowest(old(items), threshold)) && Descending(drops)
    {
      hide SortedListing, Lists, Heap.IsHeap, Rank, Pick, Elements, Distinct;
      LowestAll(items, threshold);
      if |items| <= threshold {
        return [];
      }
      ghost var m := items;
      ghost var l := SortIndex();
      drops := DropHighest(threshold, l);
      AfterCap(l, m, index, threshold, drops, cache);
      index := Heap.Init(index[..threshold], Id);
      if cache.Some? {
        cache := Some(cache.value[..|cache.value| - |drops|]);
      }
    }

    method SortIndex() returns (ghost l: seq<Tx>)
      requires Indexed()
      modifies this`index
      ensures SortedListing(l, items) && |l| == |index| == |items| && Distinct(index)
      ensures forall i :: 0 <= i < |l| ==> index[i] in items && l[i] == items[index[i]]
    {
      SetIsDistinct(index, items.Keys);
      Sorting.SortSorts(index, Id);
      index := Sorting.Sort(index, Id);
      SetIsDistinct(index, items.Keys);
      SortedPick(items, index);
      l := Pick(items, index);
    }

    /** With the index sorted, deletes from the highest nonce down. */
    method DropHighest(threshold: nat, ghost l: seq<Tx>) returns (drops: seq<Tx>)
      requires Keyed(items) && SortedListing(l, items) && threshold <= |l| == |index| == |items|
      requires forall i :: 0 <= i < |l| ==> index[i] in items && l[i] == items[index[i]]
      modifies this`items
      ensures items == Lowest(old(items), threshold)
      ensures |drops| == |l| - threshold && forall j :: 0 <= j < |drops| ==> drops[j] == l[|l| - 1 - j]
    {
      hide SortedListing, Rank;
      drops := [];
      var size := |items|;
      LowestAll(items, size);
      while size > threshold
        invariant threshold <= size <= |l|
        invariant items == Lowest(old(items), size)
        invariant |drops| == |l| - size && forall j :: 0 <= j < |drops| ==> drops[j] == l[|l| - 1 - j]
      {
        LowestStep(l, old(items), size);
        assert l[size - 1].nonce == index[size - 1] && items[index[size - 1]] == l[size - 1];
        drops := drops + [items[index[size - 1]]];
        items := items - {index[size - 1]};
        size := size - 1;
      }
    }

    method FindNonce(nonce: nat) returns (i: nat)
      requires Indexed() && nonce in items
      ensures i < |index| && index[i] == nonce
    {
      SetIsDistinct(index, items.Keys);
      assert nonce in Elements(index);
      i := 0;
      while index[i] != nonce
        invariant i < |index| && nonce !in index[..i]
        decreases |index| - i
      {
        i := i + 1;
      }
    }

    /** Removes the transaction at `nonce`, reporting whether there was one. */
    method Remove(nonce: nat) returns (found: bool)
      requires Valid()
      modifies this
      ensures Valid() && found == (nonce in old(items)) && items == old(items) - {nonce}
    {
      hide SortedListing, Heap.IsHeap;
      if nonce !in items {
        assert items - {nonce} == items;
        return false;
      }
      var i := FindNonce(nonce);
      index := Heap.RemoveAt(index, i, Id);
      WithoutKey(items.Keys, nonce);
      assert (items - {nonce}).Keys == items.Keys - {nonce};
      items := items - {nonce};
      cache := None;
      return true;
    }

    /** Removes and returns the consecutive run at the front, if it starts at or before `start`. */
    method TakeReady(start: nat) returns (ready: seq<Tx>)
      requires Valid()
      modifies this
      ensures Valid() && items == NotReady(old(items), start)
      ensures SortedListing(ready, Ready(old(items), start))
    {
      hide SortedListing, Heap.IsHeap, Gapless;
      ready := [];
      if |index| == 0 || index[0] > start {
        if |index| == 0 { EmptyIndex(); } else { RootNonce(); }
        NothingReady(items, start);
        return;
      }
      RootNonce();
      var first := index[0];
      ghost var next;
      ready, next := PopRun(first);
      RunIsReady(old(items), start, first, next);
      cache := None;
    }

    /** Pops consecutive nonces from the root of the index. */
    method PopRun(first: nat) returns (ready: seq<Tx>, ghost past: nat)
      requires Indexed() && forall n :: n in items ==> first <= n
      modifies this
      ensures Indexed() && first <= past
      ensures items == From(old(items), past) && SortedListing(ready, Below(old(items), past))
      ensures forall n: nat :: first <= n < past ==> n in old(items)
      ensures past !in old(items)
    {
      hide SortedListing, Heap.IsHeap, SplitOff;
      ready := [];
      assert SplitOff(items, items, []) by { SplitOffNone(items); }
      var next := first;
      while |index| > 0 && index[0] == next
        invariant Indexed() && Keyed(old(items)) && first <= next
        invariant SplitOff(old(items), items, ready)
        invariant forall n: nat :: first <= n < next ==> n in old(items)
        invariant forall n :: n in items ==> n >= next
        invariant forall i :: 0 <= i < |ready| ==> ready[i].nonce < next
        decreases |index|
      {
        RootNonce();
        SplitOffMore(old(items), items, ready, next);
        ready := ready + [items[next]];
        var popped := PopRoot();
        next := next + 1;
      }
      if |index| > 0 { RootNonce(); } else { EmptyIndex(); }
      SplitOffAt(old(items), items, ready, next);
      assert next !in items;
      past := next;
    }

    /** The nonce-sorted listing, sorted once and cached. */
    method Flatten() returns (txs: seq<Tx>)
      requires Valid()
      modifies this`cache
      ensures Valid() && SortedListing(txs, items)
    {
      hide Lists, SortedListing, Heap.IsHeap;
      if cache.None? {
        var all: seq<Tx> := [];
        ghost var done: Txs := map[];
        assert Lists(all, done) by { EmptyLists(); }
        var todo := items.Keys;
        while todo != {}
          invariant todo <= items.Keys
          invariant done == map n | n in items && n !in todo :: items[n]
          invariant Lists(all, done)
          decreases |todo|
        {
          var n :| n in todo;
          todo := todo - {n};
          AppendLists(all, done, items[n]);
          done := done[n := items[n]];
          all := all + [items[n]];
        }
        assert done == items;
        Sorting.SortSorts(all, NonceOf);
        SortedLists(all, Sorting.Sort(all, NonceOf), items);
        cache := Some(Sorting.Sort(all, NonceOf));
      }
      txs := cache.value;
    }

    /** The transaction with the highest nonce. */
    method LastElement() returns (tx: Tx)
      requires Valid() && items != map[]
      modifies this`cache
      ensures Valid() && tx.nonce in items && items[tx.nonce] == tx
      ensures forall n :: n in items ==> n <= tx.nonce
    {
      var txs := Flatten();
      ListingLength(txs, items);
      assert |items.Keys| > 0;
      tx := txs[|txs| - 1];
    }
  }

  lemma EmptyLists()
    ensures Lists([], map[])
  {
  }

  lemma NothingSelected(m: Txs, f: Tx -> bool)
    requires Lists([], Select(m, f))
    ensures Reject(m, f) == m
  {
    assert forall n :: n in m ==> (n in Select(m, f) <==> f(m[n]));
  }

  lemma LowestAll(m: Txs, k: nat)
    ensures |m| <= k ==> Lowest(m, k) == m && AllButLowest(m, k) == map[] && Lists([], AllButLowest(m, k))
  {
    forall n | n in m ensures Rank(m, n) < |m| {
      RankBound(m, n);
    }
  }

  lemma SortedPick(m: Txs, ns: seq<nat>)
    requires Keyed(m) && Distinct(ns) && Elements(ns) == m.Keys && Sorting.Sorted(ns, Id)
    ensures forall i :: 0 <= i < |ns| ==> ns[i] in m
    ensures SortedListing(Pick(m, ns), m)
  {
    PickLists(m, ns);
    forall i, j | 0 <= i < j < |ns| ensures ns[i] < ns[j] {
      assert Id(ns[i]) <= Id(ns[j]);
    }
  }

  lemma LowestStep(l: seq<Tx>, m: Txs, size: nat)
    requires SortedListing(l, m) && Keyed(m) && 0 < size <= |l|
    ensures var n := l[size - 1].nonce;
            n in Lowest(m, size) && Lowest(m, size) - {n} == Lowest(m, size - 1)
  {
    var n := l[size - 1].nonce;
    ListingRank(l, m, size - 1);
    forall x | x in m && x != n ensures Rank(m, x) != size - 1 {
      if x < n { RankStrict(m, x, n); } else { RankStrict(m, n, x); }
    }
  }

  lemma DropsList(l: seq<Tx>, m: Txs, k: nat, drops: seq<Tx>)
    requires SortedListing(l, m) && Keyed(m) && k <= |l|
    requires |drops| == |l| - k && forall j :: 0 <= j < |drops| ==> drops[j] == l[|l| - 1 - j]
    ensures Lists(drops, AllButLowest(m, k)) && Descending(drops)
  {
    hide Rank, Ascending, Descending;
    forall i | 0 <= i < |l| ensures l[i].nonce in AllButLowest(m, k) <==> k <= i {
      ListingRank(l, m, i);
    }
    BackLists(l, m, AllButLowest(m, k), k);
    ReversedLists(l[k..], AllButLowest(m, k), drops);
  }

  lemma PrefixKeys(l: seq<Tx>, m: Txs, ns: seq<nat>, k: nat)
    requires SortedListing(l, m) && Keyed(m) && k <= |l| == |ns| && Distinct(ns)
    requires forall i :: 0 <= i < |l| ==> ns[i] in m && l[i] == m[ns[i]]
    ensures multiset(ns[..k]) == multiset(Lowest(m, k).Keys)
  {
    forall i | 0 <= i < |l| ensures Rank(m, ns[i]) == i {
      ListingRank(l, m, i);
    }
    DistinctIsSet(ns[..k]);
    assert Elements(ns[..k]) == Lowest(m, k).Keys by {
      forall n | n in Lowest(m, k) ensures n in ns[..k] {
        var i :| 0 <= i < |l| && l[i] == m[n];
        assert ns[..k][i] == n;
      }
    }
  }

  /** What capping leaves: the dropped listing, the index prefix and the shortened cache. */
  lemma AfterCap(l: seq<Tx>, m: Txs, ns: seq<nat>, k: nat, drops: seq<Tx>, cache: Option<seq<Tx>>)
    requires SortedListing(l, m) && Keyed(m) && k <= |l| == |ns| && Distinct(ns) && IsCache(cache, m)
    requires forall i :: 0 <= i < |l| ==> ns[i] in m && l[i] == m[ns[i]]
    requires |drops| == |l| - k && forall j :: 0 <= j < |drops| ==> drops[j] == l[|l| - 1 - j]
    ensures Lists(drops, AllButLowest(m, k)) && Descending(drops) && Keyed(Lowest(m, k))
    ensures multiset(ns[..k]) == multiset(Lowest(m, k).Keys)
    ensures cache.Some? ==> |drops| <= |cache.value| && SortedListing(cache.value[..|cache.value| - |drops|], Lowest(m, k))
  {
    DropsList(l, m, k, drops);
    PrefixKeys(l, m, ns, k);
    if cache.Some? {
      ListingUnique(l, cache.value, m);
      ShiftBack(l, m, k);
    }
  }

  lemma NothingReady(m: Txs, start: nat)
    requires forall n :: n in m ==> n > start
    ensures NotReady(m, start) == m && SortedListing([], Ready(m, start))
  {
  }

  lemma RunIsReady(m: Txs, start: nat, first: nat, next: nat)
    requires first in m && first <= start && forall n :: n in m ==> first <= n
    requires first <= next && next !in m && forall n: nat :: first <= n < next ==> n in m
    ensures Ready(m, start) == Below(m, next) && NotReady(m, start) == From(m, next)
  {
    hide Gapless, ReachesDownTo;
    forall n | n in m ensures Gapless(m, n) <==> n < next {
      RunEnds(m, first, next, n);
    }
    assert ReachesDownTo(m, start) by { RunReaches(m, first, start); }
  }

  lemma RunEnds(m: Txs, first: nat, next: nat, n: nat)
    requires first in m && (forall x :: x in m ==> first <= x) && n in m
    requires first <= next && next !in m && forall x: nat :: first <= x < next ==> x in m
    ensures Gapless(m, n) <==> n < next
  {
    assert ReachesDownTo(m, next);
  }

  lemma RunReaches(m: Txs, first: nat, start: nat)
    requires first in m && first <= start
    ensures ReachesDownTo(m, start)
  {
  }
}
